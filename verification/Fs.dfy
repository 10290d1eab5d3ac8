/** Files and free blocks: tps/fs/fs.c, for files within their direct blocks.

    blocks is what the block cache shows of the disk (see BlockCache).  */
module Fs {

  import opened Options

  const BLKSIZE: nat := 0x1000
  const NDIRECT: nat := 10
  const MAXDIRECT: nat := NDIRECT * BLKSIZE

  type Byte = x: int | 0 <= x < 0x100

  // ---------------------------------------------------------------------------------------------
  // Words of the bitmap: 32 bits, the least significant first.

  function Shl(w: seq<bool>, k: nat): seq<bool>
    requires |w| == 32 && k < 32
  {
    seq(k, _ => false) + w[..32 - k]
  }

  function Or(v: seq<bool>, w: seq<bool>): seq<bool>
    requires |v| == |w|
  {
    seq(|v|, i requires 0 <= i < |v| && |v| == |w| => v[i] || w[i])
  }

  function And(v: seq<bool>, w: seq<bool>): seq<bool>
    requires |v| == |w|
  {
    seq(|v|, i requires 0 <= i < |v| && |v| == |w| => v[i] && w[i])
  }

  function Number(one: bool): seq<bool> { [one] + seq(31, _ => false) }

  /** block_is_free */
  predicate IsFree(bitmap: seq<seq<bool>>, nblocks: nat, n: nat) {
    n < nblocks && n / 32 < |bitmap| && |bitmap[n / 32]| == 32 && bitmap[n / 32][n % 32]
  }

  // ---------------------------------------------------------------------------------------------
  // The state.

  /** struct File: f_indirect is 0. */
  datatype File = File(size: nat, direct: seq<nat>)

  /** last: for each file, the bytes as they were last written; None where nothing was, or where a
      byte of an earlier use of the block shows.  Blocks below reserved belong to no file. */
  datatype State = State(nblocks: nat, reserved: nat, bitmap: seq<seq<bool>>, files: seq<File>, blocks: seq<seq<Byte>>,
                         last: seq<seq<Option<Byte>>>)

  predicate Free(s: State, n: nat) { IsFree(s.bitmap, s.nblocks, n) }

  predicate Held(s: State, f: nat, k: nat) {
    f < |s.files| && k < |s.files[f].direct| && s.files[f].direct[k] != 0
  }

  predicate Sized(s: State) {
    && s.nblocks <= 32 * |s.bitmap|
    && (forall w :: 0 <= w < |s.bitmap| ==> |s.bitmap[w]| == 32)
    && |s.blocks| == s.nblocks && (forall n :: 0 <= n < s.nblocks ==> |s.blocks[n]| == BLKSIZE)
    && |s.last| == |s.files|
    && (forall f :: 0 <= f < |s.files| ==> |s.files[f].direct| == NDIRECT && s.files[f].size <= MAXDIRECT)
    && (forall f :: 0 <= f < |s.files| ==> |s.last[f]| == s.files[f].size)
  }

  function Blocks(size: nat): nat { (size + BLKSIZE - 1) / BLKSIZE }

  /** Position pos of file f shows what was last written there. */
  predicate Shows(s: State, f: nat, pos: nat)
    requires Sized(s) && f < |s.files| && pos < s.files[f].size
  {
    s.last[f][pos].Some? ==>
      var n := s.files[f].direct[pos / BLKSIZE];
      n != 0 && n < s.nblocks && s.blocks[n][pos % BLKSIZE] == s.last[f][pos].value
  }

  ghost predicate Inv(s: State) {
    && Sized(s) && 0 < s.reserved
    && (forall n: nat :: n < s.reserved ==> !Free(s, n))
    && (forall f: nat, k: nat :: Held(s, f, k) ==>
          && s.reserved <= s.files[f].direct[k] < s.nblocks && !Free(s, s.files[f].direct[k])
          && k < Blocks(s.files[f].size))
    && (forall f: nat, k: nat, g: nat, l: nat ::
          Held(s, f, k) && Held(s, g, l) && s.files[f].direct[k] == s.files[g].direct[l] ==> f == g && k == l)
    && (forall f: nat, pos: nat :: f < |s.files| && pos < s.files[f].size ==> Shows(s, f, pos))
  }

  // ---------------------------------------------------------------------------------------------
  // Changes of the bitmap.

  /** bitmap[n / 32] &= 0 << (n % 32) */
  function Cleared(bitmap: seq<seq<bool>>, n: nat): seq<seq<bool>>
    requires n / 32 < |bitmap| && |bitmap[n / 32]| == 32
  {
    bitmap[n / 32 := And(bitmap[n / 32], Shl(Number(false), n % 32))]
  }

  /** bitmap[n / 32] |= 1 << (n % 32) */
  function Freed(bitmap: seq<seq<bool>>, n: nat): seq<seq<bool>>
    requires n / 32 < |bitmap| && |bitmap[n / 32]| == 32
  {
    bitmap[n / 32 := Or(bitmap[n / 32], Shl(Number(true), n % 32))]
  }

  /** Allocating a block takes every free block of its word of the bitmap with it. */
  lemma ClearedIs(bitmap: seq<seq<bool>>, nblocks: nat, n: nat, m: nat)
    requires n / 32 < |bitmap| && |bitmap[n / 32]| == 32
    ensures IsFree(Cleared(bitmap, n), nblocks, m) <==> IsFree(bitmap, nblocks, m) && m / 32 != n / 32
    ensures |Cleared(bitmap, n)| == |bitmap| && |Cleared(bitmap, n)[n / 32]| == 32
  {
  }

  /** So it takes exactly one block exactly when no other block of that word is free. */
  lemma TakesOnlyOneExactly(bitmap: seq<seq<bool>>, nblocks: nat, n: nat)
    requires IsFree(bitmap, nblocks, n)
    ensures (forall m: nat :: IsFree(Cleared(bitmap, n), nblocks, m) <==> IsFree(bitmap, nblocks, m) && m != n)
       <==> (forall m: nat :: m / 32 == n / 32 && m != n ==> !IsFree(bitmap, nblocks, m))
  {
    forall m: nat
      ensures IsFree(Cleared(bitmap, n), nblocks, m) <==> IsFree(bitmap, nblocks, m) && m / 32 != n / 32
    {
      ClearedIs(bitmap, nblocks, n, m);
    }
    hide Cleared, IsFree;
    if m: nat :| m / 32 == n / 32 && m != n && IsFree(bitmap, nblocks, m) {
      assert !IsFree(Cleared(bitmap, n), nblocks, m);
    }
  }

  lemma FreedIs(bitmap: seq<seq<bool>>, nblocks: nat, n: nat, m: nat)
    requires n / 32 < |bitmap| && |bitmap[n / 32]| == 32
    ensures IsFree(Freed(bitmap, n), nblocks, m) <==> IsFree(bitmap, nblocks, m) || (m == n && n < nblocks)
    ensures |Freed(bitmap, n)| == |bitmap| && |Freed(bitmap, n)[n / 32]| == 32
  {
    if m / 32 == n / 32 && m % 32 != n % 32 {
      assert Shl(Number(true), n % 32)[m % 32] == false;
    }
  }

  // ---------------------------------------------------------------------------------------------
  // Changes of the state keep the invariant.

  function SetSlot(s: State, f: nat, k: nat, n: nat): State
    requires f < |s.files| && k < |s.files[f].direct|
  {
    s.(files := s.files[f := File(s.files[f].size, s.files[f].direct[k := n])])
  }

  /** Slot k of file f gets the free block n. */
  function Taken(s: State, f: nat, k: nat, n: nat): State
    requires Sized(s) && f < |s.files| && k < NDIRECT && n < s.nblocks
  {
    SetSlot(s.(bitmap := Cleared(s.bitmap, n)), f, k, n)
  }

  lemma TakenKeepsInv(s: State, f: nat, k: nat, n: nat)
    requires Inv(s) && f < |s.files| && k < NDIRECT && s.files[f].direct[k] == 0 && Free(s, n)
    ensures Inv(Taken(s, f, k, n)) <==> k < Blocks(s.files[f].size)
  {
    var r := Taken(s, f, k, n);
    ClearedIs(s.bitmap, s.nblocks, n, n);
    assert Sized(r);
    forall m: nat
      ensures Free(r, m) <==> Free(s, m) && m / 32 != n / 32
    {
      ClearedIs(s.bitmap, s.nblocks, n, m);
    }
    hide Cleared, IsFree, Sized;
    SlotSet(s, f, k, n);
    assert Held(r, f, k);
    forall g: nat, pos: nat | g < |r.files| && pos < r.files[g].size
      ensures Shows(r, g, pos)
    {
      assert Shows(s, g, pos);
    }
  }

  lemma SlotSet(s: State, f: nat, k: nat, n: nat)
    requires f < |s.files| && k < |s.files[f].direct|
    ensures var r := SetSlot(s, f, k, n);
      && (forall g: nat, l: nat :: Held(r, g, l) <==> if g == f && l == k then n != 0 else Held(s, g, l))
      && (forall g: nat, l: nat :: g < |s.files| && l < |s.files[g].direct| ==>
            l < |r.files[g].direct| && r.files[g].direct[l] == if g == f && l == k then n else s.files[g].direct[l])
      && (forall g: nat :: g < |s.files| ==> r.files[g].size == s.files[g].size)
  {
  }

  /** file_free_block on a slot that holds a block. */
  function Dropped(s: State, f: nat, k: nat): State
    requires Sized(s) && f < |s.files| && k < NDIRECT && s.files[f].direct[k] < s.nblocks
  {
    SetSlot(s.(bitmap := Freed(s.bitmap, s.files[f].direct[k])), f, k, 0)
  }

  lemma DroppedKeepsInv(s: State, f: nat, k: nat)
    requires Inv(s) && Held(s, f, k)
    requires forall pos: nat :: pos < s.files[f].size && pos / BLKSIZE == k ==> s.last[f][pos].None?
    ensures Inv(Dropped(s, f, k))
    ensures forall m: nat :: Free(Dropped(s, f, k), m) <==> Free(s, m) || m == s.files[f].direct[k]
  {
    var n := s.files[f].direct[k];
    var r := Dropped(s, f, k);
    FreedIs(s.bitmap, s.nblocks, n, n);
    assert Sized(r);
    forall m: nat
      ensures Free(r, m) <==> Free(s, m) || m == n
    {
      FreedIs(s.bitmap, s.nblocks, n, m);
    }
    hide Freed, IsFree, Sized;
    SlotSet(s, f, k, 0);
    forall g: nat, pos: nat | g < |r.files| && pos < r.files[g].size
      ensures Shows(r, g, pos)
    {
      assert Shows(s, g, pos);
    }
  }

  function Nones(n: nat): seq<Option<Byte>> { seq(n, _ => None) }

  function Somes(data: seq<Byte>): seq<Option<Byte>> {
    seq(|data|, i requires 0 <= i < |data| => Some(data[i]))
  }

  lemma SlotsStay(s: State, r: State)
    requires Sized(s) && Sized(r) && |r.files| == |s.files| && r.bitmap == s.bitmap && r.nblocks == s.nblocks
    requires forall g: nat :: g < |s.files| ==> r.files[g].direct == s.files[g].direct
    ensures forall g: nat, l: nat :: Held(r, g, l) <==> Held(s, g, l)
    ensures forall g: nat, l: nat :: Held(r, g, l) ==> r.files[g].direct[l] == s.files[g].direct[l]
    ensures forall n: nat :: Free(r, n) <==> Free(s, n)
  {
  }

  /** The size of file f becomes size, and what lies beyond is forgotten. */
  function Resized(s: State, f: nat, size: nat): State
    requires Sized(s) && f < |s.files|
  {
    var was := s.last[f];
    var last := if size <= |was| then was[..size] else was + Nones(size - |was|);
    s.(files := s.files[f := File(size, s.files[f].direct)], last := s.last[f := last])
  }

  lemma ResizedKeepsInv(s: State, f: nat, size: nat)
    requires Inv(s) && f < |s.files| && size <= MAXDIRECT
    requires forall k: nat :: Held(s, f, k) ==> k < Blocks(size)
    ensures Inv(Resized(s, f, size))
  {
    var r := Resized(s, f, size);
    SlotsStay(s, r);
    hide IsFree;
    forall g: nat, pos: nat | g < |r.files| && pos < r.files[g].size
      ensures Shows(r, g, pos)
    {
      if pos < s.files[g].size {
        assert Shows(s, g, pos);
      }
    }
  }

  /** What lies beyond size is forgotten, while the file keeps its size. */
  function Forgotten(s: State, f: nat, size: nat): State
    requires Sized(s) && f < |s.files| && size <= s.files[f].size
  {
    s.(last := s.last[f := s.last[f][..size] + Nones(s.files[f].size - size)])
  }

  lemma ForgottenKeepsInv(s: State, f: nat, size: nat)
    requires Inv(s) && f < |s.files| && size <= s.files[f].size
    ensures Inv(Forgotten(s, f, size))
  {
    var r := Forgotten(s, f, size);
    SlotsStay(s, r);
    hide IsFree;
    forall g: nat, pos: nat | g < |r.files| && pos < r.files[g].size
      ensures Shows(r, g, pos)
    {
      assert Shows(s, g, pos);
    }
  }

  function Splice<T>(was: seq<T>, at: nat, data: seq<T>): (r: seq<T>)
    requires at + |data| <= |was|
    ensures |r| == |was|
    ensures forall i :: 0 <= i < |was| ==> r[i] == if at <= i < at + |data| then data[i - at] else was[i]
  {
    was[..at] + data + was[at + |data|..]
  }

  /** A store of data at pos, within one block that file f holds. */
  function Stored(s: State, f: nat, pos: nat, data: seq<Byte>): State
    requires Sized(s) && f < |s.files| && pos + |data| <= s.files[f].size && pos % BLKSIZE + |data| <= BLKSIZE
    requires pos / BLKSIZE < NDIRECT && s.files[f].direct[pos / BLKSIZE] < s.nblocks
  {
    var n := s.files[f].direct[pos / BLKSIZE];
    s.(blocks := s.blocks[n := Splice(s.blocks[n], pos % BLKSIZE, data)],
       last := s.last[f := Splice(s.last[f], pos, Somes(data))])
  }

  lemma InBlock(pos: nat, len: nat, q: nat)
    requires pos % BLKSIZE + len <= BLKSIZE && pos <= q < pos + len
    ensures q / BLKSIZE == pos / BLKSIZE && q % BLKSIZE == pos % BLKSIZE + (q - pos)
  {
  }

  lemma OtherInBlock(pos: nat, len: nat, q: nat)
    requires pos % BLKSIZE + len <= BLKSIZE && !(pos <= q < pos + len) && q / BLKSIZE == pos / BLKSIZE
    ensures !(pos % BLKSIZE <= q % BLKSIZE < pos % BLKSIZE + len)
  {
  }

  lemma StoredKeepsInv(s: State, f: nat, pos: nat, data: seq<Byte>)
    requires Inv(s) && f < |s.files| && pos + |data| <= s.files[f].size && pos % BLKSIZE + |data| <= BLKSIZE
    requires pos / BLKSIZE < NDIRECT && Held(s, f, pos / BLKSIZE)
    ensures Inv(Stored(s, f, pos, data))
  {
    var r := Stored(s, f, pos, data);
    SlotsStay(s, r);
    hide IsFree, Splice;
    forall g: nat, q: nat | g < |r.files| && q < r.files[g].size
      ensures Shows(r, g, q)
    {
      assert Shows(s, g, q);
      if g == f && pos <= q < pos + |data| {
        InBlock(pos, |data|, q);
      } else if g == f && q / BLKSIZE == pos / BLKSIZE {
        OtherInBlock(pos, |data|, q);
      } else if r.last[g][q].Some? {
        assert Held(s, g, q / BLKSIZE);
      }
    }
  }

  // ---------------------------------------------------------------------------------------------
  // How many allocations the disk has room for: one for each word of the bitmap with a free block.

  ghost predicate HasFree(bitmap: seq<seq<bool>>, nblocks: nat, w: nat) {
    exists n: nat :: n / 32 == w && IsFree(bitmap, nblocks, n)
  }

  ghost function Room(bitmap: seq<seq<bool>>, nblocks: nat, w: nat): nat {
    if w == 0 then 0 else Room(bitmap, nblocks, w - 1) + if HasFree(bitmap, nblocks, w - 1) then 1 else 0
  }

  ghost function RoomLeft(s: State): nat { Room(s.bitmap, s.nblocks, |s.bitmap|) }

  lemma HasFreeCleared(bitmap: seq<seq<bool>>, nblocks: nat, n: nat, w: nat)
    requires n / 32 < |bitmap| && |bitmap[n / 32]| == 32
    ensures HasFree(Cleared(bitmap, n), nblocks, w) <==> HasFree(bitmap, nblocks, w) && w != n / 32
  {
    forall m: nat
      ensures IsFree(Cleared(bitmap, n), nblocks, m) <==> IsFree(bitmap, nblocks, m) && m / 32 != n / 32
    {
      ClearedIs(bitmap, nblocks, n, m);
    }
    hide Cleared;
    if HasFree(bitmap, nblocks, w) && w != n / 32 {
      var m: nat :| m / 32 == w && IsFree(bitmap, nblocks, m);
      assert IsFree(Cleared(bitmap, n), nblocks, m);
    }
    if HasFree(Cleared(bitmap, n), nblocks, w) {
      var m: nat :| m / 32 == w && IsFree(Cleared(bitmap, n), nblocks, m);
      assert IsFree(bitmap, nblocks, m);
    }
  }

  lemma {:induction false} RoomCleared(bitmap: seq<seq<bool>>, nblocks: nat, n: nat, w: nat)
    requires IsFree(bitmap, nblocks, n)
    ensures Room(bitmap, nblocks, w) == Room(Cleared(bitmap, n), nblocks, w) + if n / 32 < w then 1 else 0
    decreases w
  {
    if w == 0 {
    } else {
      RoomCleared(bitmap, nblocks, n, w - 1);
      HasFreeCleared(bitmap, nblocks, n, w - 1);
      assert HasFree(bitmap, nblocks, n / 32);
    }
  }

  lemma {:induction false} RoomNone(bitmap: seq<seq<bool>>, nblocks: nat, w: nat)
    ensures Room(bitmap, nblocks, w) == 0 <==> forall n: nat :: n / 32 < w ==> !IsFree(bitmap, nblocks, n)
    decreases w
  {
    if w == 0 {
    } else {
      RoomNone(bitmap, nblocks, w - 1);
      if HasFree(bitmap, nblocks, w - 1) {
        var n: nat :| n / 32 == w - 1 && IsFree(bitmap, nblocks, n);
      } else {
        forall n: nat | n / 32 == w - 1
          ensures !IsFree(bitmap, nblocks, n)
        {
        }
      }
    }
  }

  /** A full disk, in both senses. */
  lemma NoRoom(s: State)
    requires Sized(s)
    ensures RoomLeft(s) == 0 <==> forall n: nat :: !Free(s, n)
  {
    RoomNone(s.bitmap, s.nblocks, |s.bitmap|);
    forall n: nat
      ensures Free(s, n) ==> n / 32 < |s.bitmap|
      ensures Free(s, n) <==> IsFree(s.bitmap, s.nblocks, n)
    {
    }
    hide IsFree;
  }

  /** The slots from b up to e that hold no block. */
  function Holes(direct: seq<nat>, b: nat, e: nat): nat
    requires e <= |direct|
    decreases e - b
  {
    if b >= e then 0 else (if direct[b] == 0 then 1 else 0) + Holes(direct, b + 1, e)
  }

  lemma {:induction false} HolesLater(direct: seq<nat>, k: nat, n: nat, b: nat, e: nat)
    requires k < b && e <= |direct| && k < |direct|
    ensures Holes(direct[k := n], b, e) == Holes(direct, b, e)
    decreases e - b
  {
    if b < e {
      HolesLater(direct, k, n, b + 1, e);
    }
  }

  /** ... among the blocks that positions from pos up to end touch. */
  function HolesIn(direct: seq<nat>, pos: nat, end: nat): nat
    requires pos < end ==> Blocks(end) <= |direct|
  {
    if pos >= end then 0 else Holes(direct, pos / BLKSIZE, Blocks(end))
  }

  /** The end of the chunk of the loops that starts at pos. */
  function ChunkEnd(pos: nat, end: nat): (r: nat)
    requires pos < end
    ensures pos < r <= end
  {
    if BLKSIZE - pos % BLKSIZE <= end - pos then pos + (BLKSIZE - pos % BLKSIZE) else end
  }

  lemma ChunkIs(pos: nat, end: nat)
    requires pos < end
    ensures var r := ChunkEnd(pos, end);
      && pos / BLKSIZE < Blocks(end) && pos % BLKSIZE + (r - pos) <= BLKSIZE
      && (r < end ==> r / BLKSIZE == pos / BLKSIZE + 1)
      && (r == end ==> Blocks(end) == pos / BLKSIZE + 1)
  {
  }

  /** After the block of one chunk is there, one hole less. */
  lemma HolesStep(direct: seq<nat>, pos: nat, end: nat, n: nat)
    requires pos < end && Blocks(end) <= |direct| && n != 0
    requires pos / BLKSIZE < |direct| ==> direct[pos / BLKSIZE] == 0 || direct[pos / BLKSIZE] == n
    ensures pos / BLKSIZE < |direct|
    ensures var k := pos / BLKSIZE;
      HolesIn(direct, pos, end) == (if direct[k] == 0 then 1 else 0) + HolesIn(direct[k := n], ChunkEnd(pos, end), end)
  {
    ChunkIs(pos, end);
    HolesLater(direct, pos / BLKSIZE, n, pos / BLKSIZE + 1, Blocks(end));
  }

  /** One chunk uses up as much room as it fills holes. */
  lemma Balance(direct: seq<nat>, direct': seq<nat>, room: nat, room': nat, pos: nat, end: nat)
    requires pos < end && Blocks(end) <= |direct| && pos / BLKSIZE < |direct| == |direct'|
    requires var k := pos / BLKSIZE;
      && direct'[k] != 0 && (direct[k] == 0 || direct[k] == direct'[k]) && direct' == direct[k := direct'[k]]
      && room == room' + if direct[k] == 0 then 1 else 0
    ensures ChunkEnd(pos, end) < end ==> Blocks(end) <= |direct'|
    ensures HolesIn(direct, pos, end) > room <==> HolesIn(direct', ChunkEnd(pos, end), end) > room'
  {
    HolesStep(direct, pos, end, direct'[pos / BLKSIZE]);
  }

  lemma Unbalanced(direct: seq<nat>, pos: nat, end: nat)
    requires pos < end && Blocks(end) <= |direct| && pos / BLKSIZE < |direct| && direct[pos / BLKSIZE] == 0
    ensures HolesIn(direct, pos, end) > 0
  {
    HolesStep(direct, pos, end, 1);
  }

  lemma BlocksFit(end: nat)
    requires end <= MAXDIRECT
    ensures Blocks(end) <= NDIRECT
    ensures forall pos: nat :: pos < end ==> pos / BLKSIZE < Blocks(end)
  {
  }

  lemma BlocksMonotone(a: nat, b: nat)
    requires a <= b
    ensures Blocks(a) <= Blocks(b)
  {
  }

  // ---------------------------------------------------------------------------------------------
  // What a file shows.

  /** The byte at pos, if its block is there. */
  predicate ShowsByte(s: State, f: nat, pos: nat, b: Byte)
    requires Sized(s) && f < |s.files| && pos < s.files[f].size
  {
    var n := s.files[f].direct[pos / BLKSIZE];
    0 < n < s.nblocks && s.blocks[n][pos % BLKSIZE] == b
  }

  /** A file's bytes after data is written at offset; a gap before offset stays unwritten. */
  function Written(was: seq<Option<Byte>>, offset: nat, data: seq<Byte>): seq<Option<Byte>> {
    var size := offset + |data|;
    Splice(if size <= |was| then was else was + Nones(size - |was|), offset, Somes(data))
  }

  /** Reading back: the bytes written, and around them what was there. */
  lemma WrittenReadsBack(was: seq<Option<Byte>>, offset: nat, data: seq<Byte>)
    ensures var r := Written(was, offset, data);
      && |r| == (if offset + |data| <= |was| then |was| else offset + |data|)
      && r[offset..offset + |data|] == Somes(data)
      && forall i :: 0 <= i < |was| && !(offset <= i < offset + |data|) ==> r[i] == was[i]
  {
  }

  /** Two stores in a row are one. */
  /** What a file shows after a write: the bytes written where they were written, elsewhere what it showed. */
  predicate Overwritten(was: seq<Option<Byte>>, now: seq<Option<Byte>>, offset: nat, data: seq<Byte>) {
    && |now| == (if offset + |data| <= |was| then |was| else offset + |data|)
    && forall i :: 0 <= i < |now| ==>
         now[i] == if offset <= i < offset + |data| then Some(data[i - offset]) else if i < |was| then was[i] else None
  }

  lemma WrittenIs(was: seq<Option<Byte>>, offset: nat, data: seq<Byte>)
    ensures Overwritten(was, Written(was, offset, data), offset, data)
  {
    var size := offset + |data|;
    var base := if size <= |was| then was else was + Nones(size - |was|);
    var now := Splice(base, offset, Somes(data));
    assert now == Written(was, offset, data);
    hide Written, Splice;
    forall i | 0 <= i < |now|
      ensures now[i] == if offset <= i < size then Some(data[i - offset]) else if i < |was| then was[i] else None
    {
      assert now[i] == if offset <= i < size then Somes(data)[i - offset] else base[i];
    }
  }

  lemma SpliceTwice<T>(was: seq<T>, at: nat, a: seq<T>, b: seq<T>)
    requires at + |a| + |b| <= |was|
    ensures Splice(Splice(was, at, a), at + |a|, b) == Splice(was, at, a + b)
  {
  }

  /** Nothing that was there has changed; blocks may have been allocated. */
  ghost predicate Grows(s: State, r: State) {
    && r.nblocks == s.nblocks && r.reserved == s.reserved && r.blocks == s.blocks && r.last == s.last
    && |r.files| == |s.files| && |r.bitmap| == |s.bitmap|
    && (forall f: nat :: f < |s.files| ==>
          r.files[f].size == s.files[f].size && |r.files[f].direct| == |s.files[f].direct|)
    && (forall f: nat, k: nat :: Held(s, f, k) ==> Held(r, f, k) && r.files[f].direct[k] == s.files[f].direct[k])
  }

  lemma GrowsOn(s: State, r: State, t: State)
    requires Grows(s, r) && Grows(r, t)
    ensures Grows(s, t)
  {
  }

  lemma TakenGrows(s: State, f: nat, k: nat, n: nat)
    requires Inv(s) && f < |s.files| && k < NDIRECT && s.files[f].direct[k] == 0 && Free(s, n)
    ensures Grows(s, Taken(s, f, k, n))
    ensures RoomLeft(s) == RoomLeft(Taken(s, f, k, n)) + 1
  {
    SlotSet(s, f, k, n);
    RoomCleared(s.bitmap, s.nblocks, n, |s.bitmap|);
    ClearedIs(s.bitmap, s.nblocks, n, n);
  }

  lemma InvSized(s: State)
    requires Inv(s)
    ensures Sized(s)
  {
  }

  lemma ShowsLast(s: State, f: nat, pos: nat, b: Byte)
    requires Inv(s) && f < |s.files| && pos < s.files[f].size && ShowsByte(s, f, pos, b)
    ensures s.last[f][pos].Some? ==> b == s.last[f][pos].value
  {
    assert Shows(s, f, pos);
  }

  lemma NothingThere(direct: seq<nat>, end: nat)
    ensures HolesIn(direct, end, end) == 0
  {
  }

  /** The bytes data are what file f shows from offset on. */
  ghost predicate AllShow(s: State, f: nat, offset: nat, data: seq<Byte>)
    requires Sized(s) && f < |s.files| && (data != [] ==> offset + |data| <= s.files[f].size)
  {
    forall i :: 0 <= i < |data| ==> ShowsByte(s, f, offset + i, data[i])
  }

  lemma ChunkShows(s: State, f: nat, offset: nat, data: seq<Byte>, pos: nat, next: nat, chunk: seq<Byte>)
    requires Sized(s) && f < |s.files| && pos < next <= s.files[f].size && pos % BLKSIZE + (next - pos) <= BLKSIZE
    requires pos == offset + |data| && AllShow(s, f, offset, data)
    requires pos / BLKSIZE < NDIRECT && 0 < s.files[f].direct[pos / BLKSIZE] < s.nblocks
    requires chunk == s.blocks[s.files[f].direct[pos / BLKSIZE]][pos % BLKSIZE..pos % BLKSIZE + (next - pos)]
    ensures AllShow(s, f, offset, data + chunk)
  {
    forall i | 0 <= i < |data + chunk|
      ensures ShowsByte(s, f, offset + i, (data + chunk)[i])
    {
      if i >= |data| {
        InBlock(pos, next - pos, offset + i);
      }
    }
  }

  lemma GrownShows(s: State, r: State, f: nat, offset: nat, data: seq<Byte>)
    requires Sized(s) && Sized(r) && Grows(s, r) && f < |s.files| && offset + |data| <= s.files[f].size
    requires AllShow(s, f, offset, data)
    ensures AllShow(r, f, offset, data)
  {
    forall i | 0 <= i < |data|
      ensures ShowsByte(r, f, offset + i, data[i])
    {
      assert ShowsByte(s, f, offset + i, data[i]);
      assert Held(s, f, (offset + i) / BLKSIZE);
    }
  }

  lemma AllShowsLast(s: State, f: nat, offset: nat, data: seq<Byte>)
    requires Inv(s) && f < |s.files| && offset + |data| <= s.files[f].size && AllShow(s, f, offset, data)
    ensures forall i :: 0 <= i < |data| && s.last[f][offset + i].Some? ==> data[i] == s.last[f][offset + i].value
  {
    forall i | 0 <= i < |data| && s.last[f][offset + i].Some?
      ensures data[i] == s.last[f][offset + i].value
    {
      ShowsLast(s, f, offset + i, data[i]);
    }
  }

  /** The slots from a up to b are emptied. */
  function Cut(direct: seq<nat>, a: nat, b: nat): seq<nat>
    requires b <= |direct|
  {
    seq(|direct|, k requires 0 <= k < |direct| => if a <= k < b then 0 else direct[k])
  }

  /** One of the slots from a up to b holds block m. */
  predicate Drops(direct: seq<nat>, a: nat, b: nat, m: nat)
    requires b <= |direct|
  {
    m != 0 && exists k :: a <= k < b && direct[k] == m
  }

  lemma CutNone(direct: seq<nat>, a: nat)
    requires a <= |direct|
    ensures Cut(direct, a, a) == direct
    ensures forall m: nat :: !Drops(direct, a, a, m)
  {
  }

  lemma CutMore(direct: seq<nat>, a: nat, b: nat)
    requires a <= b < |direct|
    ensures Cut(direct, a, b + 1) == Cut(direct, a, b)[b := 0]
    ensures forall m: nat :: Drops(direct, a, b + 1, m) <==> Drops(direct, a, b, m) || (m != 0 && direct[b] == m)
  {
    forall m: nat | Drops(direct, a, b, m) || (m != 0 && direct[b] == m)
      ensures Drops(direct, a, b + 1, m)
    {
      if direct[b] != m {
        var k :| a <= k < b && direct[k] == m;
        assert a <= k < b + 1 && direct[k] == m;
      }
    }
  }

  /** Empty slots at the end do not matter. */
  lemma CutRest(direct: seq<nat>, a: nat, b: nat)
    requires a <= b <= |direct| && forall k :: b <= k < |direct| ==> direct[k] == 0
    ensures Cut(direct, a, b) == Cut(direct, a, |direct|)
    ensures forall m: nat :: Drops(direct, a, |direct|, m) <==> Drops(direct, a, b, m)
  {
    forall m: nat | Drops(direct, a, |direct|, m)
      ensures Drops(direct, a, b, m)
    {
      var k :| a <= k < |direct| && direct[k] == m;
      assert k < b;
    }
    forall m: nat | Drops(direct, a, b, m)
      ensures Drops(direct, a, |direct|, m)
    {
      var k :| a <= k < b && direct[k] == m;
      assert a <= k < |direct|;
    }
  }

  lemma DropsFewer(direct: seq<nat>, a: nat, m: nat)
    requires Drops(direct, a, |direct|, m)
    ensures Drops(direct, 0, |direct|, m)
  {
    var k :| a <= k < |direct| && direct[k] == m;
    assert 0 <= k < |direct|;
  }

  lemma HeldNotFree(s: State, f: nat)
    requires Inv(s) && f < |s.files|
    ensures forall m: nat :: Drops(s.files[f].direct, 0, NDIRECT, m) ==> !Free(s, m)
  {
    forall m: nat | Drops(s.files[f].direct, 0, NDIRECT, m)
      ensures !Free(s, m)
    {
      var k :| 0 <= k < NDIRECT && s.files[f].direct[k] == m;
      assert Held(s, f, k);
    }
  }

  /** A file has no blocks beyond its size. */
  lemma NoneBeyond(s: State, f: nat)
    requires Inv(s) && f < |s.files|
    ensures forall k :: Blocks(s.files[f].size) <= k < NDIRECT ==> s.files[f].direct[k] == 0
  {
    forall k | Blocks(s.files[f].size) <= k < NDIRECT
      ensures s.files[f].direct[k] == 0
    {
      assert !Held(s, f, k);
    }
  }

  lemma BeyondForgotten(s: State, f: nat, size: nat, k: nat)
    requires Sized(s) && f < |s.files| && size <= s.files[f].size && Blocks(size) <= k
    ensures forall pos: nat :: pos < s.files[f].size && pos / BLKSIZE == k ==> Forgotten(s, f, size).last[f][pos].None?
  {
    forall pos: nat | pos < s.files[f].size && pos / BLKSIZE == k
      ensures size <= pos
    {
    }
  }

  lemma CutNothing(direct: seq<nat>, a: nat)
    requires a <= |direct| && forall k :: a <= k < |direct| ==> direct[k] == 0
    ensures Cut(direct, a, |direct|) == direct
    ensures forall m: nat :: !Drops(direct, a, |direct|, m)
  {
  }

  /** The slots of a file cut to size: those of its bytes stay, those from its end on are empty. */
  predicate Trimmed(was: seq<nat>, now: seq<nat>, size: nat) {
    |now| == |was| && forall k :: 0 <= k < |was| ==> now[k] == if k * BLKSIZE < size then was[k] else 0
  }

  /** One of the slots from the end of a file of this size on holds block m. */
  predicate LosesBlock(direct: seq<nat>, size: nat, m: nat) {
    m != 0 && exists k :: 0 <= k < |direct| && k * BLKSIZE >= size && direct[k] == m
  }

  /** What a file shows that is cut to size or never was longer, if it has total bytes then. */
  predicate Remembers(was: seq<Option<Byte>>, now: seq<Option<Byte>>, size: nat, total: nat) {
    |now| == total && forall i :: 0 <= i < total ==> now[i] == if i < size && i < |was| then was[i] else None
  }

  lemma CutIs(direct: seq<nat>, size: nat)
    ensures Trimmed(direct, Cut(direct, Blocks(size), |direct|), size)
    ensures forall m: nat :: LosesBlock(direct, size, m) <==> Drops(direct, Blocks(size), |direct|, m)
  {
    forall k: nat
      ensures k < Blocks(size) <==> k * BLKSIZE < size
    {
    }
    forall m: nat
      ensures LosesBlock(direct, size, m) <==> Drops(direct, Blocks(size), |direct|, m)
    {
    }
  }

  lemma ResizedRemembers(s: State, f: nat, size: nat)
    requires Sized(s) && f < |s.files|
    ensures var r := Resized(s, f, size);
      f < |r.last| == |s.last| && r.last == s.last[f := r.last[f]] && Remembers(s.last[f], r.last[f], size, size)
  {
  }

  lemma SlotsWithin(s: State, f: nat, size: nat)
    requires Inv(s) && f < |s.files| && Blocks(size) <= NDIRECT
    requires forall k :: Blocks(size) <= k < NDIRECT ==> s.files[f].direct[k] == 0
    ensures forall k: nat :: Held(s, f, k) ==> k < Blocks(size)
  {
  }

  lemma ForgottenResized(s: State, f: nat, size: nat)
    requires Sized(s) && f < |s.files| && size <= s.files[f].size
    ensures Forgotten(s, f, size).last[f][..size] == s.last[f][..size]
  {
  }

  /** Files other than f keep their sizes, blocks and bytes. */
  ghost predicate OtherFiles(s: State, r: State, f: nat) {
    && r.nblocks == s.nblocks && r.reserved == s.reserved && |r.files| == |s.files| && |r.blocks| == |s.blocks|
    && (forall g: nat :: g < |s.files| && g != f ==> r.files[g] == s.files[g])
    && |r.last| == |s.last| && (forall g: nat :: g < |s.last| && g != f ==> r.last[g] == s.last[g])
    && (forall g: nat, k: nat :: g != f && Held(s, g, k) && s.files[g].direct[k] < |s.blocks| ==>
          r.blocks[s.files[g].direct[k]] == s.blocks[s.files[g].direct[k]])
  }

  lemma GrownOthers(s: State, r: State, f: nat)
    requires r.nblocks == s.nblocks && r.reserved == s.reserved && r.blocks == s.blocks && f < |s.files| == |r.files|
    requires r.files == s.files[f := r.files[f]] || r.files == s.files
    requires |r.last| == |s.last| && forall g: nat :: g < |s.last| && g != f ==> r.last[g] == s.last[g]
    ensures OtherFiles(s, r, f)
  {
  }

  lemma SpliceNothing(was: seq<Option<Byte>>, at: nat)
    requires at <= |was|
    ensures Splice(was, at, Somes([])) == was
  {
  }

  lemma SpliceMore(was: seq<Option<Byte>>, at: nat, buf: seq<Byte>, i: nat, j: nat)
    requires i <= j <= |buf| && at + j <= |was|
    ensures Splice(Splice(was, at, Somes(buf[..i])), at + i, Somes(buf[i..j])) == Splice(was, at, Somes(buf[..j]))
  {
    assert Somes(buf[..i]) + Somes(buf[i..j]) == Somes(buf[..j]);
    SpliceTwice(was, at, Somes(buf[..i]), Somes(buf[i..j]));
  }

  lemma OnlyThatFile(s: State, r: State, f: nat)
    requires OtherFiles(s, r, f) && f < |s.last|
    ensures f < |r.last| && r.last == s.last[f := r.last[f]]
  {
  }

  lemma OthersOn(s: State, t: State, r: State, f: nat)
    requires OtherFiles(s, t, f) && OtherFiles(t, r, f) && f < |s.files|
    ensures OtherFiles(s, r, f)
  {
    forall g: nat, k: nat | g != f && Held(s, g, k) && s.files[g].direct[k] < |s.blocks|
      ensures r.blocks[s.files[g].direct[k]] == s.blocks[s.files[g].direct[k]]
    {
      assert Held(t, g, k);
    }
  }

  /** A store into a block of f leaves the blocks of the other files alone. */
  lemma OthersStay(s: State, t: State, v: State, f: nat, pos: nat, data: seq<Byte>)
    requires OtherFiles(s, t, f) && Inv(v) && Grows(t, v) && f < |v.files|
    requires forall g: nat :: g < |v.files| && g != f ==> v.files[g] == t.files[g]
    requires pos + |data| <= v.files[f].size && pos % BLKSIZE + |data| <= BLKSIZE
    requires pos / BLKSIZE < NDIRECT && Held(v, f, pos / BLKSIZE)
    ensures OtherFiles(s, Stored(v, f, pos, data), f)
  {
    var r := Stored(v, f, pos, data);
    forall g: nat, k: nat | g != f && Held(s, g, k) && s.files[g].direct[k] < |s.blocks|
      ensures r.blocks[s.files[g].direct[k]] == s.blocks[s.files[g].direct[k]]
    {
      assert Held(v, g, k);
    }
  }

  // ---------------------------------------------------------------------------------------------
  // The loops of file_read and file_write, one chunk at a time.

  /** The block of position pos is there now, and cost what it had to. */
  ghost predicate Filled(t: State, v: State, f: nat, pos: nat) {
    && Sized(t) && Sized(v) && f < |t.files| == |v.files| && v.files[f].size == t.files[f].size
    && pos / BLKSIZE < NDIRECT
    && var k, direct := pos / BLKSIZE, t.files[f].direct;
       && v.files[f].direct[k] != 0 && (direct[k] == 0 || direct[k] == v.files[f].direct[k])
       && v.files[f].direct == direct[k := v.files[f].direct[k]]
       && RoomLeft(t) == RoomLeft(v) + if direct[k] == 0 then 1 else 0
  }

  lemma FilledIs(t: State, v: State, f: nat, pos: nat)
    requires Sized(t) && Sized(v) && f < |t.files| == |v.files| && v.files[f].size == t.files[f].size
    requires pos / BLKSIZE < NDIRECT
    requires var k, direct := pos / BLKSIZE, t.files[f].direct;
      && v.files[f].direct[k] != 0 && (direct[k] == 0 || direct[k] == v.files[f].direct[k])
      && v.files[f].direct == direct[k := v.files[f].direct[k]]
      && RoomLeft(t) == RoomLeft(v) + if direct[k] == 0 then 1 else 0
    ensures Filled(t, v, f, pos)
  {
  }

  /** The room left suits the holes from pos on exactly if it suited all of them at the start. */
  ghost predicate Suits(s: State, v: State, f: nat, offset: nat, end: nat, pos: nat)
    requires Sized(s) && Sized(v) && f < |s.files| == |v.files| && end <= MAXDIRECT
  {
    BlocksFit(end);
    HolesIn(v.files[f].direct, pos, end) > RoomLeft(v) <==> HolesIn(s.files[f].direct, offset, end) > RoomLeft(s)
  }

  lemma SuitsOn(s: State, t: State, v: State, f: nat, offset: nat, end: nat, pos: nat)
    requires Sized(s) && pos < end <= MAXDIRECT && Filled(t, v, f, pos) && f < |s.files| == |t.files|
    requires Suits(s, t, f, offset, end, pos)
    ensures Suits(s, v, f, offset, end, ChunkEnd(pos, end))
  {
    BlocksFit(end);
    ChunkIs(pos, end);
    Balance(t.files[f].direct, v.files[f].direct, RoomLeft(t), RoomLeft(v), pos, end);
    hide HolesIn, RoomLeft, Blocks;
  }

  lemma SuitsNot(s: State, t: State, f: nat, offset: nat, end: nat, pos: nat)
    requires Sized(s) && Sized(t) && pos < end <= MAXDIRECT && f < |s.files| == |t.files|
    requires Suits(s, t, f, offset, end, pos)
    requires pos / BLKSIZE < NDIRECT && t.files[f].direct[pos / BLKSIZE] == 0 && RoomLeft(t) == 0
    ensures Blocks(end) <= NDIRECT && HolesIn(s.files[f].direct, offset, end) > RoomLeft(s)
  {
    BlocksFit(end);
    Unbalanced(t.files[f].direct, pos, end);
    hide HolesIn, RoomLeft, Blocks;
  }

  /** file_read has read data, up to pos. */
  ghost predicate ReadSo(s: State, v: State, f: nat, offset: nat, end: nat, pos: nat, data: seq<Byte>) {
    && Sized(s) && Inv(v) && Grows(s, v) && f < |s.files|
    && offset <= pos <= end <= v.files[f].size && |data| == pos - offset
    && AllShow(v, f, offset, data) && Suits(s, v, f, offset, end, pos)
  }

  lemma ReadStart(s: State, f: nat, offset: nat, end: nat)
    requires Inv(s) && f < |s.files| && offset <= end <= s.files[f].size
    ensures ReadSo(s, s, f, offset, end, offset, [])
  {
  }

  lemma ReadNext(s: State, t: State, f: nat, offset: nat, end: nat, pos: nat, data: seq<Byte>)
    requires ReadSo(s, t, f, offset, end, pos, data) && pos < end
    ensures Sized(t) && f < |t.files| && pos / BLKSIZE < Blocks(t.files[f].size) && pos / BLKSIZE < NDIRECT
    ensures t.files[f].size == s.files[f].size
  {
    ChunkIs(pos, end);
    BlocksMonotone(end, t.files[f].size);
    BlocksFit(t.files[f].size);
    hide Grows, AllShow, Suits, HolesIn;
  }

  lemma ReadFails(s: State, t: State, f: nat, offset: nat, end: nat, pos: nat, data: seq<Byte>)
    requires ReadSo(s, t, f, offset, end, pos, data) && pos < end && pos / BLKSIZE < NDIRECT
    requires t.files[f].direct[pos / BLKSIZE] == 0 && RoomLeft(t) == 0
    ensures Blocks(end) <= NDIRECT && HolesIn(s.files[f].direct, offset, end) > RoomLeft(s)
  {
    SuitsNot(s, t, f, offset, end, pos);
    hide AllShow, Suits, HolesIn;
  }

  lemma ReadGoesOn(s: State, t: State, v: State, f: nat, offset: nat, end: nat, pos: nat,
                   data: seq<Byte>, chunk: seq<Byte>)
    requires ReadSo(s, t, f, offset, end, pos, data) && pos < end && Inv(v) && Grows(t, v) && Filled(t, v, f, pos)
    requires v.files[f].direct[pos / BLKSIZE] < v.nblocks
    requires pos % BLKSIZE + (ChunkEnd(pos, end) - pos) <= BLKSIZE
    requires chunk ==
      v.blocks[v.files[f].direct[pos / BLKSIZE]][pos % BLKSIZE..pos % BLKSIZE + (ChunkEnd(pos, end) - pos)]
    ensures ReadSo(s, v, f, offset, end, ChunkEnd(pos, end), data + chunk)
  {
    InvSized(t);
    SuitsOn(s, t, v, f, offset, end, pos);
    GrowsOn(s, t, v);
    GrownShows(t, v, f, offset, data);
    ChunkShows(v, f, offset, data, pos, ChunkEnd(pos, end), chunk);
    hide AllShow, Suits, Inv, ChunkEnd;
  }

  lemma ReadDone(s: State, v: State, f: nat, offset: nat, end: nat, data: seq<Byte>)
    requires ReadSo(s, v, f, offset, end, end, data)
    ensures Blocks(end) <= NDIRECT && HolesIn(s.files[f].direct, offset, end) <= RoomLeft(s)
    ensures Grows(s, v) && f < |v.files| && |data| == end - offset && AllShow(v, f, offset, data)
    ensures forall i :: 0 <= i < |data| && v.last[f][offset + i].Some? ==> data[i] == v.last[f][offset + i].value
  {
    BlocksFit(end);
    NothingThere(v.files[f].direct, end);
    AllShowsLast(v, f, offset, data);
  }

  /** file_write has stored what buf holds for the positions up to pos. */
  ghost predicate WriteSo(s: State, v: State, f: nat, buf: seq<Byte>, offset: nat, pos: nat) {
    && Sized(s) && Inv(v) && OtherFiles(s, v, f) && f < |s.files|
    && offset <= pos <= offset + |buf| <= s.files[f].size == v.files[f].size
    && v.last[f] == Splice(s.last[f], offset, Somes(buf[..pos - offset]))
    && Suits(s, v, f, offset, offset + |buf|, pos)
  }

  lemma WriteStart(s: State, f: nat, buf: seq<Byte>, offset: nat)
    requires Inv(s) && f < |s.files| && offset + |buf| <= s.files[f].size
    ensures WriteSo(s, s, f, buf, offset, offset)
  {
    SpliceNothing(s.last[f], offset);
    hide Splice, Somes;
  }

  lemma WriteNext(s: State, t: State, f: nat, buf: seq<Byte>, offset: nat, pos: nat)
    requires WriteSo(s, t, f, buf, offset, pos) && pos < offset + |buf|
    ensures Sized(t) && f < |t.files| && pos / BLKSIZE < Blocks(t.files[f].size) && pos / BLKSIZE < NDIRECT
    ensures offset + |buf| <= t.files[f].size
  {
    ChunkIs(pos, offset + |buf|);
    BlocksMonotone(offset + |buf|, t.files[f].size);
    BlocksFit(t.files[f].size);
    hide OtherFiles, Suits, Splice;
  }

  lemma WriteFails(s: State, t: State, f: nat, buf: seq<Byte>, offset: nat, pos: nat)
    requires WriteSo(s, t, f, buf, offset, pos) && pos < offset + |buf| && pos / BLKSIZE < NDIRECT
    requires t.files[f].direct[pos / BLKSIZE] == 0 && RoomLeft(t) == 0
    ensures Blocks(offset + |buf|) <= NDIRECT && HolesIn(s.files[f].direct, offset, offset + |buf|) > RoomLeft(s)
  {
    SuitsNot(s, t, f, offset, offset + |buf|, pos);
    hide Suits, Splice, HolesIn;
  }

  lemma WriteGoesOn(s: State, t: State, v: State, f: nat, buf: seq<Byte>, offset: nat, pos: nat)
    requires WriteSo(s, t, f, buf, offset, pos) && pos < offset + |buf|
    requires Inv(v) && OtherFiles(t, v, f) && Filled(t, v, f, pos)
    requires var next := ChunkEnd(pos, offset + |buf|);
      && |t.last[f]| == s.files[f].size
      && v.last[f] == Splice(t.last[f], pos, Somes(buf[pos - offset..next - offset]))
    ensures WriteSo(s, v, f, buf, offset, ChunkEnd(pos, offset + |buf|))
  {
    SuitsOn(s, t, v, f, offset, offset + |buf|, pos);
    OthersOn(s, t, v, f);
    SpliceMore(s.last[f], offset, buf, pos - offset, ChunkEnd(pos, offset + |buf|) - offset);
    hide Suits, Splice, Somes, ChunkEnd, OtherFiles, Inv;
  }

  lemma WriteDone(s: State, v: State, f: nat, buf: seq<Byte>, offset: nat)
    requires WriteSo(s, v, f, buf, offset, offset + |buf|)
    ensures Blocks(offset + |buf|) <= NDIRECT && HolesIn(s.files[f].direct, offset, offset + |buf|) <= RoomLeft(s)
    ensures OtherFiles(s, v, f) && f < |v.last| == |s.last| && offset + |buf| <= |s.last[f]|
    ensures v.last[f] == Splice(s.last[f], offset, Somes(buf))
  {
    BlocksFit(offset + |buf|);
    NothingThere(v.files[f].direct, offset + |buf|);
    assert buf[..|buf|] == buf;
    hide Splice, Somes, HolesIn;
  }

  // ---------------------------------------------------------------------------------------------
  // The loop of file_truncate_blocks, one block at a time.

  /** Slot k of file f is empty; the block it held, if any, is free. */
  ghost predicate Emptied(t: State, v: State, f: nat, k: nat) {
    && Sized(t) && f < |t.files| && k < NDIRECT
    && v.blocks == t.blocks && v.last == t.last && v.nblocks == t.nblocks && v.reserved == t.reserved
    && v.files == t.files[f := File(t.files[f].size, t.files[f].direct[k := 0])]
    && forall m: nat :: Free(v, m) <==> Free(t, m) || (m != 0 && m == t.files[f].direct[k])
  }

  /** The blocks from the new end up to bno are gone. */
  ghost predicate CutSo(s: State, v: State, f: nat, newsize: nat, bno: nat) {
    && Inv(s) && Inv(v) && f < |s.files| && newsize <= s.files[f].size
    && Blocks(newsize) <= bno <= Blocks(s.files[f].size) <= NDIRECT
    && v.blocks == s.blocks && v.last == Forgotten(s, f, newsize).last
    && v.nblocks == s.nblocks && v.reserved == s.reserved
    && v.files == s.files[f := File(s.files[f].size, Cut(s.files[f].direct, Blocks(newsize), bno))]
    && forall m: nat :: Free(v, m) <==> Free(s, m) || Drops(s.files[f].direct, Blocks(newsize), bno, m)
  }

  lemma CutStart(s: State, f: nat, newsize: nat)
    requires Inv(s) && f < |s.files| && newsize <= s.files[f].size
    ensures Sized(s) && Blocks(newsize) <= Blocks(s.files[f].size) <= NDIRECT
    ensures CutSo(s, Forgotten(s, f, newsize), f, newsize, Blocks(newsize))
  {
    BlocksMonotone(newsize, s.files[f].size);
    BlocksFit(s.files[f].size);
    ForgottenKeepsInv(s, f, newsize);
    CutNone(s.files[f].direct, Blocks(newsize));
    hide Cut, Drops;
    assert s.files[f := File(s.files[f].size, s.files[f].direct)] == s.files;
  }

  lemma CutNext(s: State, t: State, f: nat, newsize: nat, bno: nat)
    requires CutSo(s, t, f, newsize, bno) && bno < Blocks(s.files[f].size)
    ensures f < |t.files| && bno < NDIRECT && f < |t.last| && |t.last[f]| == t.files[f].size
    ensures forall pos: nat :: pos < t.files[f].size && pos / BLKSIZE == bno ==> t.last[f][pos].None?
  {
    InvSized(s);
    InvSized(t);
    BeyondForgotten(s, f, newsize, bno);
  }

  lemma CutGoesOn(s: State, t: State, v: State, f: nat, newsize: nat, bno: nat)
    requires CutSo(s, t, f, newsize, bno) && bno < Blocks(s.files[f].size) && Inv(v) && Emptied(t, v, f, bno)
    ensures CutSo(s, v, f, newsize, bno + 1)
  {
    InvSized(s);
    var direct, newN := s.files[f].direct, Blocks(newsize);
    CutMore(direct, newN, bno);
    assert Cut(direct, newN, bno)[bno] == direct[bno];
    hide Inv, Free, Cut, Drops, Blocks;
    assert v.files == s.files[f := File(s.files[f].size, Cut(direct, newN, bno + 1))];
  }

  lemma CutDone(s: State, v: State, f: nat, newsize: nat, bno: nat)
    requires CutSo(s, v, f, newsize, bno) && bno == Blocks(s.files[f].size)
    ensures v.files == s.files[f := File(s.files[f].size, Cut(s.files[f].direct, Blocks(newsize), NDIRECT))]
    ensures forall m: nat :: Free(v, m) <==> Free(s, m) || Drops(s.files[f].direct, Blocks(newsize), NDIRECT, m)
    ensures forall m: nat :: Drops(s.files[f].direct, Blocks(newsize), NDIRECT, m) ==> !Free(s, m)
    ensures v.blocks == s.blocks && v.last == Forgotten(s, f, newsize).last
  {
    NoneBeyond(s, f);
    CutRest(s.files[f].direct, Blocks(newsize), bno);
    HeldNotFree(s, f);
    forall m: nat | Drops(s.files[f].direct, Blocks(newsize), NDIRECT, m)
      ensures !Free(s, m)
    {
      DropsFewer(s.files[f].direct, Blocks(newsize), m);
    }
  }

  lemma {:induction false} NoHoles(direct: seq<nat>, b: nat, e: nat)
    requires e <= |direct| && forall k :: b <= k < e ==> direct[k] != 0
    ensures Holes(direct, b, e) == 0
    decreases e - b
  {
    if b >= e {
    } else {
      NoHoles(direct, b + 1, e);
    }
  }

  /** What was written has blocks. */
  lemma WrittenHasBlocks(s: State, f: nat, offset: nat, end: nat)
    requires Inv(s) && f < |s.files| && offset <= end <= s.files[f].size
    requires forall pos :: offset <= pos < end ==> s.last[f][pos].Some?
    ensures offset < end ==> Blocks(end) <= |s.files[f].direct|
    ensures HolesIn(s.files[f].direct, offset, end) == 0
  {
    if offset < end {
      BlocksFit(end);
      forall k | offset / BLKSIZE <= k < Blocks(end) ensures s.files[f].direct[k] != 0 {
        var pos := if k * BLKSIZE < offset then offset else k * BLKSIZE;
        assert pos / BLKSIZE == k && offset <= pos < end;
        assert Shows(s, f, pos);
      }
      NoHoles(s.files[f].direct, offset / BLKSIZE, Blocks(end));
    }
  }

  // ---------------------------------------------------------------------------------------------
  // The code.

  class FileSystem {
    const nblocks: nat
    const reserved: nat
    var bitmap: seq<seq<bool>>
    var files: seq<File>
    var blocks: seq<seq<Byte>>
    ghost var last: seq<seq<Option<Byte>>>

    /** A formatted disk with nfiles empty files; its bitmap marks the reserved blocks as in use. */
    constructor (nblocks: nat, reserved: nat, bitmap: seq<seq<bool>>, blocks: seq<seq<Byte>>, nfiles: nat)
      requires 0 < reserved && nblocks <= 32 * |bitmap| && (forall w :: 0 <= w < |bitmap| ==> |bitmap[w]| == 32)
      requires |blocks| == nblocks && (forall n :: 0 <= n < nblocks ==> |blocks[n]| == BLKSIZE)
      requires forall n: nat :: n < reserved ==> !IsFree(bitmap, nblocks, n)
      ensures Valid() && this.nblocks == nblocks && this.bitmap == bitmap && this.blocks == blocks
      ensures |files| == nfiles && forall f :: 0 <= f < nfiles ==> files[f].size == 0
    {
      this.nblocks, this.reserved, this.bitmap, this.blocks := nblocks, reserved, bitmap, blocks;
      files := seq(nfiles, _ => File(0, seq(NDIRECT, _ => 0)));
      last := seq(nfiles, _ => []);
    }

    ghost function Value(): State
      reads this
    {
      State(nblocks, reserved, bitmap, files, blocks, last)
    }

    ghost predicate Valid()
      reads this
    {
      Inv(Value())
    }

    method BlockIsFree(n: nat) returns (r: bool)
      requires Valid()
      ensures r <==> Free(Value(), n)
    {
      if n >= nblocks {
        return false;
      }
      return bitmap[n / 32][n % 32];
    }

    /** free_block; block 0 makes it panic.  Exactly block n becomes free. */
    method FreeBlock(n: nat) returns (panics: bool)
      requires Sized(Value()) && n < nblocks
      modifies `bitmap
      ensures panics <==> n == 0
      ensures panics ==> bitmap == old(bitmap)
      ensures !panics ==> Sized(Value()) && forall m: nat :: Free(Value(), m) <==> Free(old(Value()), m) || m == n
      ensures !panics ==> bitmap == Freed(old(bitmap), n)
    {
      if n == 0 {
        return true;
      }
      FreedIs(bitmap, nblocks, n, n);
      forall m: nat ensures IsFree(Freed(bitmap, n), nblocks, m) <==> IsFree(bitmap, nblocks, m) || m == n {
        FreedIs(bitmap, nblocks, n, m);
      }
      bitmap := bitmap[n / 32 := Or(bitmap[n / 32], Shl(Number(true), n % 32))];
      return false;
    }

    /** alloc_block returns the lowest free block, and makes every free block of its word unavailable. */
    method AllocBlock() returns (r: Option<nat>)
      requires Valid()
      modifies `bitmap
      ensures r.None? ==> bitmap == old(bitmap) && forall n: nat :: !Free(old(Value()), n)
      ensures r.Some? ==>
        && Free(old(Value()), r.value) && (forall n: nat :: n < r.value ==> !Free(old(Value()), n))
        && bitmap == Cleared(old(bitmap), r.value)
    {
      var n: nat := 0;
      while n < nblocks
        invariant n <= nblocks && bitmap == old(bitmap)
        invariant forall m: nat :: m < n ==> !Free(old(Value()), m)
      {
        var free := BlockIsFree(n);
        if free {
          bitmap := bitmap[n / 32 := And(bitmap[n / 32], Shl(Number(false), n % 32))];
          return Some(n);
        }
        n := n + 1;
      }
      return None;
    }

    /** file_get_block of a direct block.  The source stores alloc_block's error in the unsigned slot,
        where its test cannot see it, and diskaddr panics: None.  Past the end of the file it allocates a
        block that no truncation to a smaller size will free. */
    method FileGetBlock(f: nat, filebno: nat) returns (r: Option<nat>)
      requires Valid() && f < |files| && filebno < NDIRECT
      modifies this
      ensures filebno < |old(files)[f].direct|
      ensures r.None? <==> old(files)[f].direct[filebno] == 0 && RoomLeft(old(Value())) == 0
      ensures r.Some? ==> Grows(old(Value()), Value()) && f < |files|
      ensures r.Some? ==> (Valid() <==> filebno < Blocks(old(files)[f].size))
      ensures r.Some? ==> 0 < r.value < nblocks && Held(Value(), f, filebno) && files[f].direct[filebno] == r.value
      ensures r.Some? ==> files[f].direct == old(files)[f].direct[filebno := r.value]
      ensures r.Some? ==> forall g: nat :: g < |files| && g != f ==> files[g] == old(files)[g]
      ensures r.Some? ==>
        RoomLeft(old(Value())) == RoomLeft(Value()) + if old(files)[f].direct[filebno] == 0 then 1 else 0
    {
      ghost var s := Value();
      NoRoom(s);
      if files[f].direct[filebno] == 0 {
        var n := AllocBlock();
        if n.None? {
          return None;
        }
        files := files[f := File(files[f].size, files[f].direct[filebno := n.value])];
        TakenKeepsInv(s, f, filebno, n.value);
        TakenGrows(s, f, filebno, n.value);
        assert Value() == Taken(s, f, filebno, n.value);
      } else {
        assert Held(s, f, filebno);
      }
      var b := files[f].direct[filebno];
      assert b != 0;
      return Some(b);
    }

    /** file_read: as many bytes as there are, each what its block shows, and what was last written
        where something was.  A hole is given a block first; the disk can be too full for that. */
    method FileRead(f: nat, count: nat, offset: nat) returns (r: Option<seq<Byte>>)
      requires Valid() && f < |files|
      modifies this
      ensures var size := old(files)[f].size;
        var n := if offset >= size then 0 else if count <= size - offset then count else size - offset;
        && (r.None? <==> HolesIn(old(files)[f].direct, offset, offset + n) > RoomLeft(old(Value())))
        && (r.Some? ==> Valid() && Grows(old(Value()), Value()) && |r.value| == n && f < |files|)
        && (r.Some? ==> AllShow(Value(), f, offset, r.value))
        && (r.Some? ==> forall i :: 0 <= i < n && last[f][offset + i].Some? ==> r.value[i] == last[f][offset + i].value)
    {
      hide Holes, Inv;
      ghost var s := Value();
      InvSized(s);
      if offset >= files[f].size {
        NothingThere(files[f].direct, offset);
        return Some([]);
      }
      var n := if count <= files[f].size - offset then count else files[f].size - offset;
      var data: seq<Byte> := [];
      var pos, end := offset, offset + n;
      ReadStart(s, f, offset, end);
      hide ReadSo, Filled, Grows;
      while pos < end
        invariant offset <= pos <= end && Valid() && ReadSo(s, Value(), f, offset, end, pos, data)
      {
        ghost var t := Value();
        ReadNext(s, t, f, offset, end, pos, data);
        var b := FileGetBlock(f, pos / BLKSIZE);
        if b.None? {
          ReadFails(s, t, f, offset, end, pos, data);
          return None;
        }
        var next := ChunkEnd(pos, end);
        InvSized(Value());
        ChunkIs(pos, end);
        var chunk := blocks[b.value][pos % BLKSIZE..pos % BLKSIZE + (next - pos)];
        FilledIs(t, Value(), f, pos);
        ReadGoesOn(s, t, Value(), f, offset, end, pos, data, chunk);
        data := data + chunk;
        pos := next;
      }
      ReadDone(s, Value(), f, offset, end, data);
      r := Some(data);
    }

    /** file_free_block of a block whose bytes are forgotten. */
    method FileFreeBlock(f: nat, filebno: nat)
      requires Valid() && f < |files| && filebno < NDIRECT
      requires forall pos: nat :: pos < files[f].size && pos / BLKSIZE == filebno ==> last[f][pos].None?
      modifies this
      ensures filebno < |old(files)[f].direct|
      ensures Valid() && Emptied(old(Value()), Value(), f, filebno)
      ensures old(files)[f].direct[filebno] != 0 ==> !Free(old(Value()), old(files)[f].direct[filebno])
    {
      ghost var t := Value();
      var n := files[f].direct[filebno];
      if n != 0 {
        assert Held(t, f, filebno);
        DroppedKeepsInv(t, f, filebno);
        var panics := FreeBlock(n);
        files := files[f := File(files[f].size, files[f].direct[filebno := 0])];
        assert Value() == Dropped(t, f, filebno);
      } else {
        assert files[f].direct[filebno := 0] == files[f].direct;
        assert files[f := files[f]] == files;
      }
    }

    /** file_truncate_blocks, called with a size smaller than the file's: exactly the blocks from the new
        end on become free, and none of them was free before. */
    method FileTruncateBlocks(f: nat, newsize: nat)
      requires Valid() && f < |files| && newsize <= files[f].size
      modifies this
      ensures Valid() && blocks == old(blocks) && last == Forgotten(old(Value()), f, newsize).last
      ensures files == old(files)[f := File(old(files)[f].size, Cut(old(files)[f].direct, Blocks(newsize), NDIRECT))]
      ensures forall m: nat :: Free(Value(), m) <==>
                Free(old(Value()), m) || Drops(old(files)[f].direct, Blocks(newsize), NDIRECT, m)
      ensures forall m: nat :: Drops(old(files)[f].direct, Blocks(newsize), NDIRECT, m) ==> !Free(old(Value()), m)
      ensures |files| == |old(files)| && Trimmed(old(files)[f].direct, files[f].direct, newsize)
      ensures forall m: nat :: Free(Value(), m) <==>
                Free(old(Value()), m) || LosesBlock(old(files)[f].direct, newsize, m)
      ensures f < |last| == |old(last)| && last == old(last)[f := last[f]]
      ensures Remembers(old(last)[f], last[f], newsize, old(files)[f].size)
    {
      hide Trimmed, LosesBlock;
      ghost var s := Value();
      CutStart(s, f, newsize);
      CutIs(files[f].direct, newsize);
      var oldN, newN := Blocks(files[f].size), Blocks(newsize);
      last := Forgotten(s, f, newsize).last;
      var bno := newN;
      hide CutSo, Inv, Free;
      while bno < oldN
        invariant newN <= bno <= oldN && Valid() && CutSo(s, Value(), f, newsize, bno)
      {
        ghost var t := Value();
        CutNext(s, t, f, newsize, bno);
        FileFreeBlock(f, bno);
        CutGoesOn(s, t, Value(), f, newsize, bno);
        bno := bno + 1;
      }
      CutDone(s, Value(), f, newsize, bno);
    }

    /** file_set_size: what remains of the file shows what it showed, and a longer file shows nothing new. */
    method FileSetSize(f: nat, newsize: nat)
      requires Valid() && f < |files| && newsize <= MAXDIRECT
      modifies this
      ensures Valid() && blocks == old(blocks)
      ensures last == Resized(old(Value()), f, newsize).last
      ensures files == old(files)[f := File(newsize, Cut(old(files)[f].direct, Blocks(newsize), NDIRECT))]
      ensures forall m: nat :: Free(Value(), m) <==>
                Free(old(Value()), m) || Drops(old(files)[f].direct, Blocks(newsize), NDIRECT, m)
      ensures old(files)[f].size <= newsize ==> bitmap == old(bitmap) && files[f].direct == old(files)[f].direct
      ensures |files| == |old(files)| && Trimmed(old(files)[f].direct, files[f].direct, newsize)
      ensures forall m: nat :: Free(Value(), m) <==>
                Free(old(Value()), m) || LosesBlock(old(files)[f].direct, newsize, m)
      ensures f < |last| == |old(last)| && last == old(last)[f := last[f]]
      ensures Remembers(old(last)[f], last[f], newsize, newsize)
    {
      hide Trimmed, LosesBlock, Remembers;
      ghost var s := Value();
      InvSized(s);
      ResizedRemembers(s, f, newsize);
      CutIs(files[f].direct, newsize);
      BlocksFit(newsize);
      if files[f].size > newsize {
        FileTruncateBlocks(f, newsize);
      } else {
        NoneBeyond(s, f);
        BlocksMonotone(files[f].size, newsize);
        CutRest(files[f].direct, Blocks(newsize), NDIRECT);
        CutNone(files[f].direct, NDIRECT);
        CutNothing(files[f].direct, Blocks(newsize));
      }
      ghost var t := Value();
      SlotsWithin(t, f, newsize);
      ResizedKeepsInv(t, f, newsize);
      files := files[f := File(newsize, files[f].direct)];
      last := Resized(t, f, newsize).last;
      if s.files[f].size > newsize {
        ForgottenResized(s, f, newsize);
      }
      assert Value() == Resized(t, f, newsize);
    }

    /** The body of the loop in file_write: one memmove into one block, allocated if need be. */
    method WriteChunk(f: nat, pos: nat, chunk: seq<Byte>) returns (ok: bool)
      requires Valid() && f < |files| && chunk != [] && pos + |chunk| <= files[f].size
      requires pos % BLKSIZE + |chunk| <= BLKSIZE
      requires pos / BLKSIZE < NDIRECT && pos / BLKSIZE < |files[f].direct| && pos / BLKSIZE < Blocks(files[f].size)
      modifies this
      ensures !ok <==> old(files)[f].direct[pos / BLKSIZE] == 0 && RoomLeft(old(Value())) == 0
      ensures ok ==> Valid() && OtherFiles(old(Value()), Value(), f)
      ensures ok ==> f < |last| == |old(last)| && pos + |chunk| <= |old(last)[f]|
      ensures ok ==> last[f] == Splice(old(last)[f], pos, Somes(chunk))
      ensures ok ==> Filled(old(Value()), Value(), f, pos)
    {
      ghost var t := Value();
      assert OtherFiles(t, t, f);
      var b := FileGetBlock(f, pos / BLKSIZE);
      if b.None? {
        return false;
      }
      ghost var v := Value();
      StoredKeepsInv(v, f, pos, chunk);
      OthersStay(t, t, v, f, pos, chunk);
      hide Inv, Grows, Free, OtherFiles;
      blocks := blocks[b.value := Splice(blocks[b.value], pos % BLKSIZE, chunk)];
      last := last[f := Splice(last[f], pos, Somes(chunk))];
      assert Value() == Stored(v, f, pos, chunk);
      FilledIs(t, Value(), f, pos);
      ok := true;
    }

    /** One round of the loop in file_write; s is the state when the loop began. */
    method WriteRound(f: nat, buf: seq<Byte>, offset: nat, pos: nat, ghost s: State) returns (ok: bool, next: nat)
      requires Valid() && WriteSo(s, Value(), f, buf, offset, pos) && pos < offset + |buf|
      modifies this
      ensures ok ==> Valid() && pos < next <= offset + |buf| && WriteSo(s, Value(), f, buf, offset, next)
      ensures Blocks(offset + |buf|) <= NDIRECT && f < |s.files| && |s.files[f].direct| == NDIRECT
      ensures !ok ==> HolesIn(s.files[f].direct, offset, offset + |buf|) > RoomLeft(s)
    {
      hide Suits;
      ghost var t := Value();
      BlocksFit(offset + |buf|);
      WriteNext(s, t, f, buf, offset, pos);
      ChunkIs(pos, offset + |buf|);
      next := ChunkEnd(pos, offset + |buf|);
      ok := WriteChunk(f, pos, buf[pos - offset..next - offset]);
      if ok {
        WriteGoesOn(s, t, Value(), f, buf, offset, pos);
      } else {
        WriteFails(s, t, f, buf, offset, pos);
      }
    }

    /** The loop of file_write, once the file is long enough. */
    method WriteLoop(f: nat, buf: seq<Byte>, offset: nat) returns (ok: bool)
      requires Valid() && f < |files| && offset + |buf| <= files[f].size <= MAXDIRECT
      modifies this
      ensures ok <==> HolesIn(old(files)[f].direct, offset, offset + |buf|) <= RoomLeft(old(Value()))
      ensures ok ==> Valid() && OtherFiles(old(Value()), Value(), f)
      ensures ok ==> f < |last| == |old(last)| && offset + |buf| <= |old(last)[f]|
      ensures ok ==> last[f] == Splice(old(last)[f], offset, Somes(buf))
    {
      ghost var s := Value();
      InvSized(s);
      WriteStart(s, f, buf, offset);
      var pos, end := offset, offset + |buf|;
      while pos < end
        invariant offset <= pos <= end && Valid() && WriteSo(s, Value(), f, buf, offset, pos)
      {
        ok, pos := WriteRound(f, buf, offset, pos, s);
        if !ok {
          return;
        }
      }
      WriteDone(s, Value(), f, buf, offset);
      ok := true;
    }

    /** file_write within the direct blocks.  It panics exactly when the disk has not room for the holes
        it meets; otherwise the file shows the bytes where they were written and, around them, what it
        showed before, and no other file is touched. */
    method FileWrite(f: nat, buf: seq<Byte>, offset: nat) returns (ok: bool)
      requires Valid() && f < |files| && offset + |buf| <= MAXDIRECT
      modifies this
      ensures ok <==> HolesIn(old(files)[f].direct, offset, offset + |buf|) <= RoomLeft(old(Value()))
      ensures ok ==> Valid() && last == old(last)[f := Written(old(last)[f], offset, buf)]
      ensures ok ==> OtherFiles(old(Value()), Value(), f)
      ensures ok ==> f < |last| && f < |old(last)| && Overwritten(old(last)[f], last[f], offset, buf)
    {
      hide Overwritten, Held, Trimmed;
      ghost var s := Value();
      WrittenIs(last[f], offset, buf);
      InvSized(s);
      hide Inv, HolesIn, Holes, Splice, Somes, OtherFiles, Blocks;
      if offset + |buf| > files[f].size {
        FileSetSize(f, offset + |buf|);
      }
      ghost var t := Value();
      InvSized(t);
      GrownOthers(s, t, f);
      assert HolesIn(files[f].direct, offset, offset + |buf|) == HolesIn(s.files[f].direct, offset, offset + |buf|);
      ok := WriteLoop(f, buf, offset);
      if ok {
        OthersOn(s, t, Value(), f);
        OnlyThatFile(s, Value(), f);
      }
    }

    /** file_write and then file_read of the same range: if neither panics, the bytes come back. */
    method WriteThenRead(f: nat, buf: seq<Byte>, offset: nat) returns (r: Option<seq<Byte>>)
      requires Valid() && f < |files| && offset + |buf| <= MAXDIRECT
      modifies this
      ensures r.None? <==> HolesIn(old(files)[f].direct, offset, offset + |buf|) > RoomLeft(old(Value()))
      ensures r.Some? ==> Valid() && r.value == buf
    {
      ghost var s := Value();
      var ok := FileWrite(f, buf, offset);
      if !ok {
        return None;
      }
      WrittenReadsBack(s.last[f], offset, buf);
      ghost var t := Value();
      forall i | 0 <= i < |buf| ensures last[f][offset + i] == Some(buf[i]) {
        assert t.last[f][offset..offset + |buf|][i] == Somes(buf)[i];
      }
      forall pos | offset <= pos < offset + |buf| ensures last[f][pos].Some? {
        assert last[f][offset + (pos - offset)].Some?;
      }
      WrittenHasBlocks(t, f, offset, offset + |buf|);
      hide Inv, HolesIn, Written, Somes;
      r := FileRead(f, |buf|, offset);
    }
  }
}
