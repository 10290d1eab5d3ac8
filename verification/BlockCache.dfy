/** The block cache of the file server, tps/fs/bc.c, and fs_sync of tps/fs/fs.c: page faults read
    blocks in, the hardware marks pages dirty, flushes write them back. */
module BlockCache {

  import opened Options

  const BLKSIZE: nat := 0x1000
  const DISKMAP: nat := 0x1000_0000
  const DISKSIZE: nat := 0xC000_0000

  type Byte = x: int | 0 <= x < 0x100

  /** A mapped page of the cache, and its PTE_D. */
  datatype Page = Page(data: seq<Byte>, dirty: bool)

  /** free: the blocks the bitmap calls free; ready: `super` and `bitmap` are set. */
  datatype State = State(nblocks: nat, disk: seq<seq<Byte>>, cache: map<nat, Page>, free: set<nat>, ready: bool)

  // ---------------------------------------------------------------------------------------------
  // Addresses.

  /** diskaddr; None is its panic. */
  function DiskAddr(s: State, n: nat): Option<nat> {
    if n == 0 || (s.ready && n >= s.nblocks) then None else Some(DISKMAP + n * BLKSIZE)
  }

  function BlockNo(va: nat): nat
    requires DISKMAP <= va
  {
    (va - DISKMAP) / BLKSIZE
  }

  predicate InMap(va: nat) { DISKMAP <= va < DISKMAP + DISKSIZE }

  /** va is an address inside block n. */
  predicate InBlock(s: State, n: nat, va: nat) {
    DiskAddr(s, n).Some? && DiskAddr(s, n).value <= va < DiskAddr(s, n).value + BLKSIZE
  }

  /** The addresses inside a block are exactly those that name it, if it is not block 0 and exists. */
  lemma BlockNoOfAddr(s: State, n: nat, va: nat)
    ensures InBlock(s, n, va) <==> DISKMAP <= va && BlockNo(va) == n && n != 0 && (s.ready ==> n < s.nblocks)
  {
  }

  // ---------------------------------------------------------------------------------------------
  // The steps.

  /** bc_pgfault on an address in block n, not mapped: None is a panic. */
  function Fault(s: State, n: nat): Option<State>
    requires n < |s.disk|
  {
    var r := s.(cache := s.cache[n := Page(s.disk[n], false)]);
    if s.ready && n >= s.nblocks then None
    else if s.ready && n in s.free then None
    else Some(r)
  }

  /** An access to block n: it faults if the block is not there. */
  function Touch(s: State, n: nat): Option<State>
    requires n < |s.disk|
  {
    if n in s.cache then Some(s) else Fault(s, n)
  }

  function SetByte(block: seq<Byte>, off: nat, b: Byte): (r: seq<Byte>)
    requires off < |block|
    ensures |r| == |block| && r[off] == b && forall k :: 0 <= k < |block| && k != off ==> r[k] == block[k]
  {
    block[off := b]
  }

  /** A store by the file server; the page becomes dirty. */
  function Store(s: State, n: nat, off: nat, b: Byte): State
    requires n in s.cache && off < |s.cache[n].data|
  {
    s.(cache := s.cache[n := Page(SetByte(s.cache[n].data, off, b), true)])
  }

  /** flush_block */
  function Flush(s: State, n: nat): State
    requires n < |s.disk|
  {
    if n !in s.cache || !s.cache[n].dirty then s
    else s.(disk := s.disk[n := s.cache[n].data], cache := s.cache[n := Page(s.cache[n].data, false)])
  }

  function Unmap(s: State, n: nat): State { s.(cache := s.cache - {n}) }

  /** fs_sync from block i on. */
  function SyncFrom(s: State, i: nat): State
    requires s.nblocks <= |s.disk|
    decreases s.nblocks - i
  {
    if i >= s.nblocks then s else SyncFrom(Flush(s, i), i + 1)
  }

  datatype Event =
    | LoadByte(n: nat)
    | StoreByte(n: nat, off: nat, b: Byte)
    | FlushBlock(n: nat)
    | Drop(n: nat)                     // sys_page_unmap of a clean block
    | SetFree(free: set<nat>)
    | Sync

  /** What a program can do without a panic, and without unmapping a dirty block. */
  predicate Enabled(s: State, ev: Event) {
    && s.nblocks <= |s.disk|
    && match ev
       case LoadByte(n) => n < |s.disk| && Touch(s, n).Some?
       case StoreByte(n, off, _) =>
         n < |s.disk| && off < BLKSIZE && Touch(s, n).Some? && off < |Touch(s, n).value.cache[n].data|
       case FlushBlock(n) => n < |s.disk|
       case Drop(n) => n in s.cache ==> !s.cache[n].dirty
       case SetFree(_) => true
       case Sync => true
  }

  function Step(s: State, ev: Event): State
    requires Enabled(s, ev)
  {
    match ev
    case LoadByte(n) => Touch(s, n).value
    case StoreByte(n, off, b) => Store(Touch(s, n).value, n, off, b)
    case FlushBlock(n) => Flush(s, n)
    case Drop(n) => Unmap(s, n)
    case SetFree(free) => s.(free := free)
    case Sync => SyncFrom(s, 1)
  }

  // ---------------------------------------------------------------------------------------------
  // What a program sees.

  function Visible(s: State, n: nat): seq<Byte>
    requires n < |s.disk|
  {
    if n in s.cache then s.cache[n].data else s.disk[n]
  }

  /** The disk a program without a cache would see. */
  function Plain(s: State): seq<seq<Byte>> {
    seq(|s.disk|, n requires 0 <= n < |s.disk| => Visible(s, n))
  }

  /** Every mapped clean block equals its disk copy. */
  ghost predicate Inv(s: State) {
    && s.nblocks <= |s.disk|
    && (forall n :: 0 <= n < |s.disk| ==> |s.disk[n]| == BLKSIZE)
    && (forall n :: n in s.cache ==> n < |s.disk| && |s.cache[n].data| == BLKSIZE)
    && (forall n :: n in s.cache && !s.cache[n].dirty ==> s.cache[n].data == s.disk[n])
  }

  /** The same event on a plain disk: only stores do anything. */
  function PlainStep(disk: seq<seq<Byte>>, ev: Event): seq<seq<Byte>> {
    if ev.StoreByte? && ev.n < |disk| && ev.off < |disk[ev.n]| then
      disk[ev.n := SetByte(disk[ev.n], ev.off, ev.b)]
    else disk
  }

  lemma FlushKeeps(s: State, n: nat)
    requires Inv(s) && n < |s.disk|
    ensures Inv(Flush(s, n)) && Plain(Flush(s, n)) == Plain(s)
    ensures Flush(s, n).disk[n] == Visible(s, n)
    ensures n in Flush(s, n).cache ==> !Flush(s, n).cache[n].dirty
  {
  }

  lemma {:induction false} SyncKeeps(s: State, i: nat)
    requires Inv(s)
    ensures var r := SyncFrom(s, i);
      && Inv(r) && Plain(r) == Plain(s) && |r.disk| == |s.disk| && r.nblocks == s.nblocks
      && (forall n :: i <= n < s.nblocks ==> r.disk[n] == Visible(s, n) && (n in r.cache ==> !r.cache[n].dirty))
      && (forall n :: 0 <= n < |s.disk| && !(i <= n < s.nblocks) ==> r.disk[n] == s.disk[n])
      && r.cache.Keys == s.cache.Keys
      && (forall n :: n in s.cache && n < i ==> r.cache[n] == s.cache[n])
    decreases s.nblocks - i
  {
    hide Visible;
    if i >= s.nblocks {
    } else {
      FlushKeeps(s, i);
      var t := Flush(s, i);
      SyncKeeps(t, i + 1);
      assert Plain(t) == Plain(s);
      assert forall n :: 0 <= n < |s.disk| ==> Plain(t)[n] == Visible(t, n) && Plain(s)[n] == Visible(s, n);
    }
  }

  /** Exactly the unmapping of a page that differs from the disk changes what a program sees. */
  lemma UnmapExactly(s: State, n: nat)
    requires Inv(s) && n < |s.disk|
    ensures Inv(Unmap(s, n))
    ensures Plain(Unmap(s, n)) == Plain(s) <==> (n in s.cache ==> s.cache[n].data == s.disk[n])
    ensures (n in s.cache ==> !s.cache[n].dirty) ==> Plain(Unmap(s, n)) == Plain(s)
  {
    var r := Unmap(s, n);
    assert Plain(r)[n] == s.disk[n] && Plain(s)[n] == Visible(s, n);
    if n in s.cache ==> s.cache[n].data == s.disk[n] {
      assert Plain(r) == Plain(s);
    }
  }

  lemma TouchKeeps(s: State, n: nat)
    requires Inv(s) && n < |s.disk| && Touch(s, n).Some?
    ensures var t := Touch(s, n).value; Inv(t) && Plain(t) == Plain(s) && n in t.cache
  {
  }

  lemma StoreAgrees(s: State, n: nat, off: nat, b: Byte)
    requires Inv(s) && n in s.cache && off < BLKSIZE
    ensures Inv(Store(s, n, off, b))
    ensures n < |Plain(s)| && off < |Plain(s)[n]|
    ensures Plain(Store(s, n, off, b)) == Plain(s)[n := SetByte(Plain(s)[n], off, b)]
  {
    assert Plain(s)[n] == s.cache[n].data;
  }

  lemma StepAgrees(s: State, ev: Event)
    requires Inv(s) && Enabled(s, ev)
    ensures Inv(Step(s, ev)) && Plain(Step(s, ev)) == PlainStep(Plain(s), ev)
  {
    match ev
    case FlushBlock(n) => FlushKeeps(s, n);
    case Drop(n) =>
      if n < |s.disk| {
        UnmapExactly(s, n);
      } else {
        assert Unmap(s, n).cache == s.cache;
      }
    case Sync => SyncKeeps(s, 1);
    case LoadByte(n) => TouchKeeps(s, n);
    case StoreByte(n, off, b) =>
      TouchKeeps(s, n);
      StoreAgrees(Touch(s, n).value, n, off, b);
    case SetFree(_) => assert Plain(Step(s, ev)) == Plain(s);
  }

  // ---------------------------------------------------------------------------------------------
  // Whole runs.

  predicate Runs(s: State, evs: seq<Event>)
    decreases |evs|
  {
    evs == [] || (Enabled(s, evs[0]) && Runs(Step(s, evs[0]), evs[1..]))
  }

  function Run(s: State, evs: seq<Event>): State
    requires Runs(s, evs)
    decreases |evs|
  {
    if evs == [] then s else Run(Step(s, evs[0]), evs[1..])
  }

  function PlainRun(disk: seq<seq<Byte>>, evs: seq<Event>): seq<seq<Byte>>
    decreases |evs|
  {
    if evs == [] then disk else PlainRun(PlainStep(disk, evs[0]), evs[1..])
  }

  /** In every run each block shows its last stores, and a mapped clean block equals its disk copy. */
  lemma {:induction false} RunAgrees(s: State, evs: seq<Event>)
    requires Inv(s) && Runs(s, evs)
    ensures Inv(Run(s, evs)) && Plain(Run(s, evs)) == PlainRun(Plain(s), evs)
    decreases |evs|
  {
    if evs == [] {
    } else {
      StepAgrees(s, evs[0]);
      RunAgrees(Step(s, evs[0]), evs[1..]);
    }
  }

  /** The byte last stored at offset off of block n. */
  function LastStored(evs: seq<Event>, n: nat, off: nat): Option<Byte>
    decreases |evs|
  {
    if evs == [] then None
    else if LastStored(evs[1..], n, off).Some? then LastStored(evs[1..], n, off)
    else if evs[0].StoreByte? && evs[0].n == n && evs[0].off == off then Some(evs[0].b)
    else None
  }

  /** In every run a program sees at every place the byte last stored there, or the one that was there. */
  lemma {:induction false} EveryByteIsLastStored(s: State, evs: seq<Event>, n: nat, off: nat)
    requires Inv(s) && Runs(s, evs) && n < |s.disk| && off < BLKSIZE
    ensures var r := Run(s, evs);
      && |r.disk| == |s.disk| && |Visible(r, n)| == |Visible(s, n)| == BLKSIZE
      && var last := LastStored(evs, n, off);
         Visible(r, n)[off] == if last.Some? then last.value else Visible(s, n)[off]
    decreases |evs|
  {
    if evs == [] {
    } else {
      var t := Step(s, evs[0]);
      StepAgrees(s, evs[0]);
      assert Plain(t)[n] == Visible(t, n) && Plain(s)[n] == Visible(s, n);
      hide Step, Enabled, Visible;
      EveryByteIsLastStored(t, evs[1..], n, off);
    }
  }

  /** After a run that ends in fs_sync the disk itself holds the last stores of every block from 1 up;
      what was stored in block 0 since it was last flushed is not written. */
  lemma SyncWritesAll(s: State, evs: seq<Event>)
    requires Inv(s) && Runs(s, evs)
    ensures Run(s, evs).nblocks <= |Run(s, evs).disk|
    ensures var r := SyncFrom(Run(s, evs), 1);
      var plain := PlainRun(Plain(s), evs);
      && |plain| == |r.disk| == |Run(s, evs).disk| && r.nblocks <= |r.disk|
      && (forall n :: 1 <= n < r.nblocks ==> r.disk[n] == plain[n])
      && (r.disk != [] ==> r.disk[0] == Run(s, evs).disk[0])
  {
    RunAgrees(s, evs);
    var t := Run(s, evs);
    SyncKeeps(t, 1);
    assert forall n :: 0 <= n < |t.disk| ==> Plain(t)[n] == Visible(t, n);
  }

  // ---------------------------------------------------------------------------------------------
  // The code.

  class Cache {
    const nblocks: nat
    var disk: seq<seq<Byte>>
    var pages: map<nat, Page>
    var free: set<nat>
    var ready: bool

    function Value(): State
      reads this
    {
      State(nblocks, disk, pages, free, ready)
    }

    /** bc_pgfault; false is a panic.  The block comes in clean, and nothing looks different. */
    method Pgfault(va: nat) returns (ok: bool)
      requires InMap(va) ==> BlockNo(va) < |disk| && BlockNo(va) !in pages
      modifies this`pages
      ensures ok <==> InMap(va) && !(ready && (BlockNo(va) >= nblocks || BlockNo(va) in free))
      ensures ok ==> pages == old(pages)[BlockNo(va) := Page(disk[BlockNo(va)], false)]
      ensures ok ==> Plain(Value()) == old(Plain(Value())) && (old(Inv(Value())) ==> Inv(Value()))
      ensures InMap(va) && nblocks <= |disk| ==>
        && (ok <==> Enabled(old(Value()), LoadByte(BlockNo(va))))
        && (ok ==> Value() == Step(old(Value()), LoadByte(BlockNo(va))))
    {
      if va < DISKMAP || va >= DISKMAP + DISKSIZE {
        return false;
      }
      var n := BlockNo(va);
      if ready && n >= nblocks {
        return false;
      }
      pages := pages[n := Page(seq(BLKSIZE, _ => 0), false)];
      pages := pages[n := Page(disk[n], true)];
      pages := pages[n := pages[n].(dirty := false)];
      if ready && n in free {
        return false;
      }
      return true;
    }

    /** flush_block of any address in a block; false is a panic.  The disk has what was visible, the
        page is clean, other blocks are left alone, and a block that is not mapped or not dirty is not
        written. */
    method FlushBlock(va: nat) returns (ok: bool)
      requires InMap(va) ==> BlockNo(va) < |disk|
      modifies this`disk, this`pages
      ensures ok <==> InMap(va)
      ensures forall n: nat :: InBlock(old(Value()), n, va) ==> BlockNo(va) == n
      ensures ok && old(Inv(Value())) ==>
        && Inv(Value()) && Plain(Value()) == old(Plain(Value()))
        && disk == old(disk)[BlockNo(va) := old(Visible(Value(), BlockNo(va)))]
      ensures ok ==> BlockNo(va) in pages ==> !pages[BlockNo(va)].dirty
      ensures ok ==> pages.Keys == old(pages).Keys
      ensures ok ==> forall n :: n in pages && n != BlockNo(va) ==> pages[n] == old(pages)[n]
      ensures ok && (BlockNo(va) in old(pages) ==> !old(pages)[BlockNo(va)].dirty) ==>
        disk == old(disk) && pages == old(pages)
      ensures ok ==> Value() == Flush(old(Value()), BlockNo(va))
      ensures ok && nblocks <= |disk| ==>
        && Enabled(old(Value()), Event.FlushBlock(BlockNo(va)))
        && Value() == Step(old(Value()), Event.FlushBlock(BlockNo(va)))
    {
      ghost var s := Value();
      forall n: nat | InBlock(s, n, va) ensures BlockNo(va) == n { BlockNoOfAddr(s, n, va); }
      if InMap(va) && Inv(s) {
        FlushKeeps(s, BlockNo(va));
      }
      if va < DISKMAP || va >= DISKMAP + DISKSIZE {
        return false;
      }
      var n := BlockNo(va);
      if n !in pages || !pages[n].dirty {
        return true;
      }
      disk := disk[n := pages[n].data];
      pages := pages[n := Page(pages[n].data, false)];
      return true;
    }

    /** fs_sync */
    method FsSync() returns (ok: bool)
      requires nblocks <= |disk| && nblocks * BLKSIZE <= DISKSIZE && ready
      modifies this
      ensures ok && Enabled(old(Value()), Sync) && Value() == Step(old(Value()), Sync)
      ensures old(Inv(Value())) ==>
        && Inv(Value()) && |disk| == old(|disk|) && Plain(Value()) == old(Plain(Value()))
        && (forall n :: 1 <= n < nblocks ==> disk[n] == old(Visible(Value(), n)) && (n in pages ==> !pages[n].dirty))
        && (forall n :: 0 <= n < |disk| && !(1 <= n < nblocks) ==> disk[n] == old(disk)[n])
    {
      if Inv(Value()) {
        SyncKeeps(Value(), 1);
      }
      var i: nat := 1;
      ok := true;
      while i < nblocks
        invariant 1 <= i && ok && nblocks <= |disk| && ready
        invariant SyncFrom(old(Value()), 1) == SyncFrom(Value(), i)
      {
        var va := DiskAddr(Value(), i);
        assert i * BLKSIZE + BLKSIZE <= nblocks * BLKSIZE;
        ok := FlushBlock(va.value);
        i := i + 1;
      }
    }
  }
}
