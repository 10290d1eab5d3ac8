/** The slots of an indirect block as file_block_walk addresses them (tps/fs/fs.c:161): slot i, a 32-bit
    word, is taken to lie at byte i of the block, not at byte 4 * i. */
module Indirect {

  import opened LittleEndian

  const BLKSIZE: nat := 0x1000
  const NINDIRECT: nat := BLKSIZE / 4

  /** A block number as it lies in memory. */
  datatype Slot = Slot(b0: Byte, b1: Byte, b2: Byte, b3: Byte)

  const EMPTY := Slot(0, 0, 0, 0)

  function Number(s: Slot): Word { Join(s.b0, s.b1, s.b2, s.b3) }

  /** *ppdiskbno for slot i. */
  function SlotOf(b: seq<Byte>, i: nat): Slot
    requires i < NINDIRECT && |b| == BLKSIZE
  {
    Slot(b[i], b[i + 1], b[i + 2], b[i + 3])
  }

  function SetSlot(b: seq<Byte>, i: nat, s: Slot): (r: seq<Byte>)
    requires i < NINDIRECT && |b| == BLKSIZE
    ensures |r| == BLKSIZE
  {
    b[i := s.b0][i + 1 := s.b1][i + 2 := s.b2][i + 3 := s.b3]
  }

  /** file_get_block on slot i, when alloc_block would return n. */
  function GetBlock(b: seq<Byte>, i: nat, n: Slot): (r: (seq<Byte>, Slot))
    requires i < NINDIRECT && |b| == BLKSIZE
    ensures |r.0| == BLKSIZE
  {
    if SlotOf(b, i) == EMPTY then (SetSlot(b, i, n), n) else (b, SlotOf(b, i))
  }

  /** A store into slot i leaves slot j as it was exactly if the bytes they share do not change; slots
      four apart share none. */
  lemma SlotKeptExactly(b: seq<Byte>, i: nat, j: nat, s: Slot)
    requires i < NINDIRECT && j < NINDIRECT && |b| == BLKSIZE
    ensures SlotOf(SetSlot(b, i, s), i) == s
    ensures SlotOf(SetSlot(b, i, s), j) == SlotOf(b, j) <==>
              forall x :: i <= x < i + 4 && j <= x < j + 4 ==> SetSlot(b, i, s)[x] == b[x]
    ensures i + 4 <= j || j + 4 <= i ==> SlotOf(SetSlot(b, i, s), j) == SlotOf(b, j)
  {
    var r := SetSlot(b, i, s);
    assert forall x :: 0 <= x < BLKSIZE && !(i <= x < i + 4) ==> r[x] == b[x];
  }

  /** So no file has two neighbouring indirect blocks: when the first, in a part of the indirect block that
      is still zero, is given block m, the second is taken to be block m / 256 if that is not 0, without
      any allocation; and otherwise the block n that is allocated for it goes into the slot of the first
      as well, which still names m only if n is a multiple of 2^24. */
  lemma SecondBlockSpoils(b: seq<Byte>, i: nat, m: Slot, n: Slot)
    requires i + 1 < NINDIRECT && |b| == BLKSIZE && SlotOf(b, i) == EMPTY == SlotOf(b, i + 1)
    ensures var (b1, first) := GetBlock(b, i, m);
            var (b2, second) := GetBlock(b1, i + 1, n);
      && first == m
      && (m.(b0 := 0) != EMPTY ==> b2 == b1 && second == Slot(m.b1, m.b2, m.b3, 0))
      && (m.(b0 := 0) == EMPTY ==> second == n && (SlotOf(b2, i) == m <==> n.(b3 := 0) == EMPTY))
  {
    var b1 := SetSlot(b, i, m);
    SlotKeptExactly(b, i, i, m);
    assert SlotOf(b1, i + 1) == Slot(m.b1, m.b2, m.b3, 0);
    if m.(b0 := 0) == EMPTY {
      assert SlotOf(SetSlot(b1, i + 1, n), i) == Slot(m.b0, n.b0, n.b1, n.b2);
    }
  }

  /** What these slots are as numbers. */
  lemma Numbers(m: Slot)
    ensures Number(Slot(m.b1, m.b2, m.b3, 0)) == Number(m) / 0x100
    ensures m.(b0 := 0) == EMPTY <==> Number(m) < 0x100
    ensures m.(b3 := 0) == EMPTY <==> Number(m) % 0x100_0000 == 0
  {
    Quotient(Number(m), 0x100, m.b1 + 0x100 * m.b2 + 0x1_0000 * m.b3, m.b0);
    Quotient(Number(m), 0x100_0000, m.b3, m.b0 + 0x100 * m.b1 + 0x1_0000 * m.b2);
  }

  lemma Quotient(n: nat, d: nat, q: nat, r: nat)
    requires d in {0x100, 0x100_0000} && r < d && n == r + d * q
    ensures n / d == q && n % d == r
  {
  }
}
