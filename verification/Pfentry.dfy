/** User page faults: the frame the kernel pushes (tps/kern/trap.c) and the way back through
    _pgfault_upcall (tps/lib/pfentry.S), with faults nested to any depth.

    Memory is a function from addresses to bytes.  A fault is described by a script: what the handler
    does, and which further faults strike in it and between the instructions of the upcall.  */
module Pfentry {

  import opened LittleEndian

  const PGSIZE: int := 0x1000
  const UXSTACKTOP: int := 0xEEC0_0000
  const PAGE: int := UXSTACKTOP - PGSIZE    // the user exception stack is [PAGE, UXSTACKTOP)
  const FRAME: int := 52                    // sizeof(struct UTrapframe): 13 words

  type Mem = int -> Byte

  /** The address of the next word, in 32 bits. */
  function Past(a: Word): Word { Wrap(a + 4) }

  // ---------------------------------------------------------------------------------------------
  // Little-endian words in memory.

  function Write(m: Mem, a: int, w: Word): Mem {
    x => if a <= x < a + 4 then ByteOf(w, x - a) else m(x)
  }

  function Read(m: Mem, a: int): Word {
    Join(m(a), m(a + 1), m(a + 2), m(a + 3))
  }

  lemma ReadBack(m: Mem, a: int, w: Word)
    ensures Read(Write(m, a, w), a) == w
  {
    JoinBytes(w);
    var r := Write(m, a, w);
    assert r(a) == ByteOf(w, 0) && r(a + 1) == ByteOf(w, 1) && r(a + 2) == ByteOf(w, 2) && r(a + 3) == ByteOf(w, 3);
  }

  lemma ReadOther(m: Mem, a: int, w: Word, b: int)
    requires b + 4 <= a || a + 4 <= b
    ensures Read(Write(m, a, w), b) == Read(m, b)
  {
  }

  function WriteWords(m: Mem, a: int, ws: seq<Word>): Mem
    decreases |ws|
  {
    if ws == [] then m else WriteWords(Write(m, a, ws[0]), a + 4, ws[1..])
  }

  lemma {:induction false} WordsWritten(m: Mem, a: int, ws: seq<Word>)
    ensures forall x :: x < a || a + 4 * |ws| <= x ==> WriteWords(m, a, ws)(x) == m(x)
    ensures forall k :: 0 <= k < |ws| ==> Read(WriteWords(m, a, ws), a + 4 * k) == ws[k]
    decreases |ws|
  {
    if ws == [] {
    } else {
      var m1 := Write(m, a, ws[0]);
      WordsWritten(m1, a + 4, ws[1..]);
      var r := WriteWords(m, a, ws);
      ReadBack(m, a, ws[0]);
      assert Read(r, a) == Read(m1, a);
      forall k | 1 <= k < |ws|
        ensures Read(r, a + 4 * k) == ws[k]
      {
        assert a + 4 * k == a + 4 + 4 * (k - 1) && ws[k] == ws[1..][k - 1];
      }
    }
  }

  /** The bytes of keep that lie off the exception page are as they were. */
  ghost predicate Kept(m: Mem, n: Mem, keep: iset<int>) {
    forall x :: x in keep && !OnPage(x) ==> m(x) == n(x)
  }

  /** The same bytes from lo up to the top of the exception stack. */
  ghost predicate Same(m: Mem, n: Mem, lo: int) {
    forall x :: lo <= x < UXSTACKTOP ==> m(x) == n(x)
  }

  lemma SameRead(m: Mem, n: Mem, lo: int, a: int)
    requires Same(m, n, lo) && lo <= a && a + 4 <= UXSTACKTOP
    ensures Read(m, a) == Read(n, a)
  {
  }

  /** A push on the exception page. */
  lemma Pushed(m: Mem, a: int, w: Word, lo: int, keep: iset<int>)
    requires PAGE <= a && a + 4 <= lo && a + 4 <= UXSTACKTOP
    ensures Same(m, Write(m, a, w), lo) && Kept(m, Write(m, a, w), keep) && Read(Write(m, a, w), a) == w
  {
    ReadBack(m, a, w);
  }

  // ---------------------------------------------------------------------------------------------
  // Scripts.

  /** struct PushRegs without the useless reg_oesp. */
  datatype Regs = Regs(edi: Word, esi: Word, ebp: Word, ebx: Word, edx: Word, ecx: Word, eax: Word)

  /** What happens at one instruction of the upcall: its address, the faults that strike before it
      completes, and the flags it leaves if it is an arithmetic one. */
  datatype Slot = Slot(eip: Word, faults: seq<Fault>, flags: Word)

  datatype Act =
    | Strikes(f: Fault)                                                            // the handler itself faults
    | Instr(regs: Regs, esp: Word, eip: Word, flags: Word, at: Word, word: Word)   // and stores one word

  datatype Fault = Fault(va: Word, err: Word, oesp: Word, slots: seq<Slot>, handler: Word, acts: seq<Act>, after: Regs)

  predicate InWord(x: int, a: int) { a <= x < a + 4 }

  predicate OnPage(x: int) { PAGE <= x < UXSTACKTOP }

  /** Where page_fault_handler puts the frame for a trap-time esp. */
  function FrameAt(esp: int): int {
    (if OnPage(esp) then esp - 4 else UXSTACKTOP) - FRAME
  }

  /** The instructions of the upcall that can fault, in order, and where esp is before each of them,
      relative to the frame.  The handler runs between the third and the fourth. */
  function Offset(k: nat): int {
    if 1 <= k < 4 then -4
    else if k < 10 then 0
    else if k == 10 then 8
    else if k == 11 then 40
    else if k == 12 then 44
    else 48
  }

  const SLOTS: nat := 14

  ghost function Word4(a: int): iset<int> { iset{a, a + 1, a + 2, a + 3} }

  /** The word below an interrupted stack off the exception page is wanted by the upcall. */
  ghost function Inner(keep: iset<int>, esp: int): iset<int> {
    if OnPage(esp) then keep else keep + Word4(esp - 4)
  }

  /** Handlers keep the stack discipline of C: their stack stays on the exception page below their own
      frame; they store nothing at or above it, nor over their own return address, nor in keep. */
  ghost predicate Behaves(f: Fault, esp: int, keep: iset<int>)
    decreases f, 1
  {
    var u := FrameAt(esp);
    && |f.slots| == SLOTS
    && (forall k :: 0 <= k < SLOTS ==> AllBehave(f.slots[k].faults, u + Offset(k), Inner(keep, esp)))
    && ActsBehave(f.acts, u, u - 8, Inner(keep, esp))
  }

  ghost predicate AllBehave(fs: seq<Fault>, esp: int, keep: iset<int>)
    decreases fs, 0
  {
    fs != [] ==> Behaves(fs[0], esp, keep) && AllBehave(fs[1..], esp, keep)
  }

  ghost predicate ActsBehave(acts: seq<Act>, u: int, esp: int, keep: iset<int>)
    decreases acts, 0
  {
    acts != [] ==>
      && ActBehaves(acts[0], u, esp, keep)
      && ActsBehave(acts[1..], u, if acts[0].Instr? then acts[0].esp else esp, keep)
  }

  ghost predicate ActBehaves(act: Act, u: int, esp: int, keep: iset<int>)
    decreases act, 0
  {
    match act
    case Strikes(f) => Behaves(f, esp, keep)
    case Instr(_, esp', _, _, at, _) =>
      && PAGE <= esp' <= u - 8
      && (at + 4 <= u - 8 || at == u - 4)
      && forall x :: InWord(x, at) ==> x !in keep
  }

  /** The frame, the argument and the return address of the upcall, and all that of every fault nested
      in it, lie on the exception page. */
  predicate Fits(f: Fault, esp: int)
    decreases f, 1
  {
    var u := FrameAt(esp);
    && PAGE <= u - 8
    && |f.slots| == SLOTS
    && (forall k :: 0 <= k < SLOTS ==> AllFit(f.slots[k].faults, u + Offset(k)))
    && ActsFit(f.acts, u - 8)
  }

  predicate AllFit(fs: seq<Fault>, esp: int)
    decreases fs, 0
  {
    fs != [] ==> Fits(fs[0], esp) && AllFit(fs[1..], esp)
  }

  predicate ActsFit(acts: seq<Act>, esp: int)
    decreases acts, 0
  {
    acts != [] ==>
      && ActFits(acts[0], esp)
      && ActsFit(acts[1..], if acts[0].Instr? then acts[0].esp else esp)
  }

  predicate ActFits(act: Act, esp: int)
    decreases act, 0
  {
    act.Strikes? ==> Fits(act.f, esp)
  }

  // ---------------------------------------------------------------------------------------------
  // The machine.

  /** struct UTrapframe as the 13 words it consists of. */
  function FrameWords(va: Word, err: Word, r: Regs, oesp: Word, eip: Word, flags: Word, esp: Word): seq<Word> {
    [va, err, r.edi, r.esi, r.ebp, oesp, r.ebx, r.edx, r.ecx, r.eax, eip, flags, esp]
  }

  /** The words ws, from the j-th on, lie at u + 4 * j and up. */
  ghost predicate Tail(m: Mem, u: int, ws: seq<Word>, j: nat) {
    forall k :: j <= k < |ws| ==> Read(m, u + 4 * k) == ws[k]
  }

  lemma TailKept(m: Mem, n: Mem, u: int, ws: seq<Word>, i: nat, j: nat)
    requires i <= j && Tail(m, u, ws, i) && Same(m, n, u + 4 * j) && u + 4 * |ws| <= UXSTACKTOP
    ensures Tail(n, u, ws, j)
  {
  }

  lemma WordAt(m: Mem, u: int, ws: seq<Word>, j: nat, k: nat)
    requires Tail(m, u, ws, j) && j <= k < |ws|
    ensures Read(m, u + 4 * k) == ws[k]
  {
  }

  /** The thirteen words one by one. */
  lemma AllWords(m: Mem, u: int, ws: seq<Word>)
    requires |ws| == 13 && Tail(m, u, ws, 0)
    ensures Read(m, u) == ws[0] && Read(m, u + 4) == ws[1] && Read(m, u + 8) == ws[2] && Read(m, u + 12) == ws[3]
    ensures Read(m, u + 16) == ws[4] && Read(m, u + 20) == ws[5] && Read(m, u + 24) == ws[6] && Read(m, u + 28) == ws[7]
    ensures Read(m, u + 32) == ws[8] && Read(m, u + 36) == ws[9] && Read(m, u + 40) == ws[10]
    ensures Read(m, u + 44) == ws[11] && Read(m, u + 48) == ws[12]
  {
    hide Read;
    assert Read(m, u + 4 * 0) == ws[0] && Read(m, u + 4 * 1) == ws[1] && Read(m, u + 4 * 2) == ws[2];
    assert Read(m, u + 4 * 3) == ws[3] && Read(m, u + 4 * 4) == ws[4] && Read(m, u + 4 * 5) == ws[5];
    assert Read(m, u + 4 * 6) == ws[6] && Read(m, u + 4 * 7) == ws[7] && Read(m, u + 4 * 8) == ws[8];
    assert Read(m, u + 4 * 9) == ws[9] && Read(m, u + 4 * 10) == ws[10] && Read(m, u + 4 * 11) == ws[11];
    assert Read(m, u + 4 * 12) == ws[12];
  }

  lemma SameUp(m: Mem, n: Mem, lo: int, hi: int)
    requires Same(m, n, lo) && lo <= hi
    ensures Same(m, n, hi)
  {
  }

  /** The bytes of keep off the page are as they were, but for the word at a. */
  ghost predicate KeptBut(m: Mem, n: Mem, keep: iset<int>, a: int) {
    forall x :: x in keep && !OnPage(x) && !InWord(x, a) ==> m(x) == n(x)
  }

  lemma ScratchChain(m: Mem, n: Mem, o: Mem, lo: int, e: int, keep: iset<int>)
    requires Same(m, n, lo) && Kept(m, n, keep)
    requires (OnPage(e) ==> lo <= e && Same(n, o, e)) && KeptBut(n, o, keep, e - 4)
    ensures OnPage(e) ==> Same(m, o, e)
    ensures KeptBut(m, o, keep, e - 4)
  {
  }

  lemma Chain(m: Mem, n: Mem, o: Mem, lo: int, keep: iset<int>)
    requires Same(m, n, lo) && Same(n, o, lo) && Kept(m, n, keep) && Kept(n, o, keep)
    ensures Same(m, o, lo) && Kept(m, o, keep)
  {
  }

  /** Storing the new esp into the frame changes its last word only. */
  lemma FrameStored(m: Mem, u: int, ws: seq<Word>, w: Word, keep: iset<int>)
    requires |ws| == 13 && Tail(m, u, ws, 0) && PAGE <= u && u + FRAME <= UXSTACKTOP
    ensures Tail(Write(m, u + 48, w), u, ws[12 := w], 0)
    ensures Same(m, Write(m, u + 48, w), u + FRAME) && Kept(m, Write(m, u + 48, w), keep)
  {
    ReadBack(m, u + 48, w);
  }

  /** Storing eip below the trap-time stack leaves the frame alone, unless that stack ends exactly
      where the exception stack does: then it overwrites the saved esp. */
  lemma ScratchStored(m: Mem, u: int, ws: seq<Word>, w: Word, keep: iset<int>)
    requires |ws| == 13 && 4 <= ws[12] <= UXSTACKTOP && Tail(m, u, ws[12 := ws[12] - 4], 0)
    requires PAGE <= u && u + FRAME <= UXSTACKTOP
    requires u + FRAME == if OnPage(ws[12]) then ws[12] - 4 else UXSTACKTOP
    ensures var n := Write(m, ws[12] - 4, w);
      && Read(n, ws[12] - 4) == w
      && (forall k :: 0 <= k < 12 ==> Read(n, u + 4 * k) == ws[k])
      && Read(n, u + 48) == (if ws[12] == UXSTACKTOP then w else ws[12] - 4)
      && (OnPage(ws[12]) ==> Same(m, n, ws[12]))
      && KeptBut(m, n, keep, ws[12] - 4)
  {
    var a := ws[12] - 4;
    ReadBack(m, a, w);
    var vs := ws[12 := a];
    forall k | 0 <= k < 13 && (k < 12 || ws[12] != UXSTACKTOP)
      ensures Read(Write(m, a, w), u + 4 * k) == vs[k]
    {
      ReadOther(m, a, w, u + 4 * k);
      assert Read(m, u + 4 * k) == vs[k];
    }
    assert forall k :: 0 <= k < 12 ==> vs[k] == ws[k];
    if ws[12] == UXSTACKTOP {
      assert a == u + 48;
    } else {
      assert Read(Write(m, a, w), u + 4 * 12) == vs[12];
    }
  }

  /** popal; the word for esp is skipped. */
  function PopAll(m: Mem, a: int): Regs {
    Regs(Read(m, a), Read(m, a + 4), Read(m, a + 8), Read(m, a + 16), Read(m, a + 20), Read(m, a + 24), Read(m, a + 28))
  }

  predicate SlotsFit(f: Fault, u: int, i: nat, j: nat)
    requires |f.slots| == SLOTS && i <= j <= 14
  {
    forall k :: i <= k < j ==> AllFit(f.slots[k].faults, u + Offset(k))
  }

  ghost predicate SlotsBehave(f: Fault, u: int, keep: iset<int>, i: nat, j: nat)
    requires |f.slots| == SLOTS && i <= j <= 14
  {
    forall k :: i <= k < j ==> AllBehave(f.slots[k].faults, u + Offset(k), keep)
  }

  lemma FewerBehave(f: Fault, u: int, keep: iset<int>)
    requires |f.slots| == SLOTS && SlotsBehave(f, u, keep, 0, 4)
    ensures SlotsBehave(f, u, keep, 0, 3)
  {
    hide AllBehave;
  }

  lemma FrameBelowTop(esp: int)
    requires esp <= UXSTACKTOP
    ensures FrameAt(esp) <= UXSTACKTOP - FRAME
  {
  }

  lemma FitsInParts(f: Fault, esp: int)
    requires |f.slots| == SLOTS
    ensures var u := FrameAt(esp);
      Fits(f, esp) <==>
        && PAGE <= u - 8 && SlotsFit(f, u, 0, 4) && ActsFit(f.acts, u - 8)
        && SlotsFit(f, u, 4, 9) && SlotsFit(f, u, 9, 14)
  {
    hide AllFit, ActsFit;
  }

  lemma BehavesInParts(f: Fault, esp: int, keep: iset<int>)
    requires Behaves(f, esp, keep)
    ensures var u := FrameAt(esp);
      && |f.slots| == SLOTS
      && SlotsBehave(f, u, Inner(keep, esp), 0, 4) && ActsBehave(f.acts, u, u - 8, Inner(keep, esp))
      && SlotsBehave(f, u, Inner(keep, esp), 4, 9) && SlotsBehave(f, u, Inner(keep, esp), 9, 14)
  {
    hide AllBehave, ActsBehave;
  }

  /** Where the upcall ends up: x is the last word of the frame when esp is popped. */
  lemma ReturnsExactly(m: Mem, n: Mem, u: int, e: Word, ip: Word, keep: iset<int>)
    requires 4 <= e <= UXSTACKTOP && u == FrameAt(e) && PAGE <= u
    requires Same(m, n, u + 48) && Kept(m, n, Inner(keep, e))
    requires Read(m, e - 4) == ip
    ensures var x := if e == UXSTACKTOP then ip else e - 4;
      (Past(x) == e && Read(n, x) == ip) <==> (e != UXSTACKTOP || ip == UXSTACKTOP - 4)
  {
    if e < PAGE {
      assert forall x :: InWord(x, e - 4) ==> x in Inner(keep, e);
    } else {
      SameRead(m, n, u + 48, e - 4);
    }
  }

  lemma UnwindMemory(m1: Mem, m2: Mem, m3: Mem, u: int, e: int, keep: iset<int>)
    requires u == FrameAt(e) && PAGE <= u && e <= UXSTACKTOP
    requires (OnPage(e) ==> Same(m1, m2, e)) && KeptBut(m1, m2, keep, e - 4)
    requires Same(m2, m3, u + 48) && Kept(m2, m3, keep)
    ensures OnPage(e) ==> Same(m1, m3, e)
    ensures KeptBut(m1, m3, keep, e - 4)
  {
  }

  /** Nothing changed outside the frame at u. */
  ghost predicate SameBut(m: Mem, n: Mem, u: int) {
    forall x :: x < u || u + FRAME <= x ==> m(x) == n(x)
  }

  lemma HandlerMemory(m0: Mem, m1: Mem, m3: Mem, u: int, e: int, keep: iset<int>)
    requires u == FrameAt(e) && PAGE <= u && e <= UXSTACKTOP
    requires Same(m0, m1, u) && Kept(m0, m1, keep)
    requires (OnPage(e) ==> Same(m1, m3, e)) && KeptBut(m1, m3, keep, e - 4)
    ensures OnPage(e) ==> Same(m0, m3, e)
    ensures KeptBut(m0, m3, keep, e - 4)
  {
  }

  lemma MemoryAfter(m: Mem, m0: Mem, m3: Mem, u: int, e: int, keep: iset<int>)
    requires u == FrameAt(e) && PAGE <= u && e <= UXSTACKTOP
    requires SameBut(m, m0, u)
    requires (OnPage(e) ==> Same(m0, m3, e)) && KeptBut(m0, m3, Inner(keep, e), e - 4)
    ensures OnPage(e) ==> Same(m, m3, e)
    ensures KeptBut(m, m3, keep, e - 4)
  {
  }

  lemma FrameWordsAre(va: Word, err: Word, r: Regs, oesp: Word, eip: Word, flags: Word, esp: Word)
    ensures var ws := FrameWords(va, err, r, oesp, eip, flags, esp);
      && |ws| == 13 && Regs(ws[2], ws[3], ws[4], ws[6], ws[7], ws[8], ws[9]) == r
      && ws[10] == eip && ws[11] == flags && ws[12] == esp
  {
  }

  lemma TailAll(m: Mem, u: int, ws: seq<Word>)
    requires |ws| == 13 && (forall k :: 0 <= k < 12 ==> Read(m, u + 4 * k) == ws[k]) && Read(m, u + 48) == ws[12]
    ensures Tail(m, u, ws, 0)
  {
    assert Read(m, u + 4 * 12) == ws[12];
  }

  /** Since m0, what is still wanted of the frame words ws, from the j-th on, and keep are intact. */
  ghost predicate Intact(m0: Mem, m: Mem, u: int, ws: seq<Word>, j: nat, keep: iset<int>) {
    Tail(m, u, ws, j) && Same(m0, m, u + 4 * j) && Kept(m0, m, keep)
  }

  lemma StayIntact(m0: Mem, m: Mem, n: Mem, u: int, ws: seq<Word>, i: nat, j: nat, keep: iset<int>)
    requires i <= j && u + 4 * |ws| <= UXSTACKTOP
    requires Intact(m0, m, u, ws, i, keep) && Same(m, n, u + 4 * j) && Kept(m, n, keep)
    ensures Intact(m0, n, u, ws, j, keep)
    ensures j < |ws| ==> Read(n, u + 4 * j) == ws[j]
  {
    TailKept(m, n, u, ws, i, j);
  }

  lemma PopsAll(m0: Mem, m: Mem, u: int, ws: seq<Word>, keep: iset<int>)
    requires |ws| == 13 && Intact(m0, m, u, ws, 2, keep)
    ensures PopAll(m, u + 8) == Regs(ws[2], ws[3], ws[4], ws[6], ws[7], ws[8], ws[9])
  {
    hide Read;
    assert forall k :: 2 <= k < 10 ==> Read(m, u + 4 * k) == ws[k];
    assert Read(m, u + 4 * 2) == ws[2] && Read(m, u + 4 * 3) == ws[3] && Read(m, u + 4 * 4) == ws[4];
    assert Read(m, u + 4 * 6) == ws[6] && Read(m, u + 4 * 7) == ws[7];
    assert Read(m, u + 4 * 8) == ws[8] && Read(m, u + 4 * 9) == ws[9];
  }

  /** A handler whose stack has dropped below the exception page when it faults is given a frame like one
      that was never on it, and that is the place of the outermost frame: what lay there is lost. */
  lemma DroppedOverwrites(m: Mem, e: int, d: int, ws: seq<Word>, vs: seq<Word>)
    requires !OnPage(e) && d < PAGE && |ws| == |vs| == 13 && Tail(m, FrameAt(e), ws, 0)
    ensures PAGE <= FrameAt(d) == FrameAt(e)
    ensures Tail(WriteWords(m, FrameAt(d), vs), FrameAt(e), vs, 0)
    ensures Tail(WriteWords(m, FrameAt(d), vs), FrameAt(e), ws, 0) <==> vs == ws
  {
    WordsWritten(m, FrameAt(d), vs);
    var n := WriteWords(m, FrameAt(d), vs);
    hide Read, WriteWords;
    if Tail(n, FrameAt(e), ws, 0) {
      forall k | 0 <= k < 13 ensures vs[k] == ws[k] {
        assert Read(n, FrameAt(e) + 4 * k) == vs[k];
      }
    }
  }

  /** n faults, each striking at once in the handler of the one before. */
  function Nest(n: nat): (f: Fault)
    requires n > 0
    ensures |f.slots| == SLOTS && (forall k :: 0 <= k < SLOTS ==> f.slots[k].faults == [])
    ensures f.acts == if n == 1 then [] else [Strikes(Nest(n - 1))]
  {
    var s := Slot(0, [], 0);
    Fault(0, 0, 0, [s, s, s, s, s, s, s, s, s, s, s, s, s, s], 0,
          if n == 1 then [] else [Strikes(Nest(n - 1))], Regs(0, 0, 0, 0, 0, 0, 0))
  }

  /** The exception page holds 64 such levels and not one more. */
  lemma SixtyFourLevelsFit(n: nat, esp: int)
    requires n > 0 && !OnPage(esp)
    ensures Fits(Nest(n), esp) <==> n <= 64
  {
    NestFits(n, esp);
  }

  lemma {:induction false} NestFits(n: nat, esp: int)
    requires n > 0
    ensures Fits(Nest(n), esp) <==> PAGE <= FrameAt(esp) - 8 - 64 * (n - 1)
    decreases n
  {
    OneMoreFits(n, esp);
    hide Fits;
    if n > 1 {
      NestFits(n - 1, FrameAt(esp) - 8);
    }
  }

  lemma OneMoreFits(n: nat, esp: int)
    requires n > 0
    ensures Fits(Nest(n), esp) <==> PAGE <= FrameAt(esp) - 8 && (n > 1 ==> Fits(Nest(n - 1), FrameAt(esp) - 8))
  {
    var f, u := Nest(n), FrameAt(esp);
    FitsInParts(f, esp);
    assert SlotsFit(f, u, 0, 4) && SlotsFit(f, u, 4, 9) && SlotsFit(f, u, 9, 14);
    hide Fits, SlotsFit;
    if n > 1 {
      assert f.acts[0] == Strikes(Nest(n - 1)) && f.acts[1..] == [];
      assert ActsFit(f.acts, u - 8) <==> ActFits(f.acts[0], u - 8) && ActsFit([], u - 8);
    }
  }

  class Cpu {
    var regs: Regs
    var esp: Word
    var eip: Word
    var flags: Word
    var mem: Mem
    const upcall: Word

    /** page_fault_handler up to env_run.  The page below the exception page is not mapped, so the
        frame is refused, and the environment destroyed, when it starts below PAGE. */
    method Deliver(va: Word, err: Word, oesp: Word) returns (ok: bool)
      modifies this
      ensures ok <==> upcall != 0 && PAGE <= FrameAt(old(esp))
      ensures !ok ==> unchanged(this)
      ensures ok ==> esp == if PAGE <= old(esp) < UXSTACKTOP then old(esp) - 56 else UXSTACKTOP - 52
      ensures ok ==> esp == FrameAt(old(esp)) && eip == upcall && regs == old(regs) && flags == old(flags)
      ensures ok ==> Tail(mem, esp, FrameWords(va, err, old(regs), oesp, old(eip), old(flags), old(esp)), 0)
      ensures ok ==> SameBut(old(mem), mem, esp)
      ensures ok ==> Read(mem, esp) == va && Read(mem, esp + 4) == err
      ensures ok ==>
        && Read(mem, esp + 8) == regs.edi && Read(mem, esp + 12) == regs.esi && Read(mem, esp + 16) == regs.ebp
        && Read(mem, esp + 24) == regs.ebx && Read(mem, esp + 28) == regs.edx && Read(mem, esp + 32) == regs.ecx
        && Read(mem, esp + 36) == regs.eax
      ensures ok ==>
        && Read(mem, esp + 40) == old(eip) && Read(mem, esp + 44) == old(flags) && Read(mem, esp + 48) == old(esp)
    {
      hide Read, WriteWords;
      if upcall == 0 {
        return false;
      }
      var dir := UXSTACKTOP;
      if esp >= UXSTACKTOP - PGSIZE && esp < UXSTACKTOP {
        dir := esp - 4;
      }
      var u := dir - FRAME;
      if u < PAGE {
        return false;
      }
      var ws := FrameWords(va, err, regs, oesp, eip, flags, esp);
      WordsWritten(mem, u, ws);
      mem := WriteWords(mem, u, ws);
      AllWords(mem, u, ws);
      eip := upcall;
      esp := u;
      ok := true;
    }

    /** Faults that strike one after another before one instruction, at address `at`, completes. */
    method TakeAll(fs: seq<Fault>, at: Word, ghost keep: iset<int>) returns (alive: bool)
      requires AllBehave(fs, esp, keep) && OnPage(esp) && upcall != 0
      modifies this
      ensures alive <==> AllFit(fs, old(esp))
      ensures alive ==> regs == old(regs) && flags == old(flags) && esp == old(esp) && eip == at
      ensures alive ==> Same(old(mem), mem, esp)
      ensures alive ==> Kept(old(mem), mem, keep)
      decreases fs, 2
    {
      eip := at;
      alive := true;
      if fs == [] {
      } else {
        alive := TakeFault(fs[0], keep);
        if alive {
          alive := TakeAll(fs[1..], at, keep);
        }
      }
    }

    method Strike(act: Act, ghost keep: iset<int>) returns (alive: bool)
      requires act.Strikes? && Behaves(act.f, esp, keep) && OnPage(esp) && upcall != 0
      modifies this
      ensures alive <==> Fits(act.f, old(esp))
      ensures alive ==> esp == old(esp) && Same(old(mem), mem, esp) && Kept(old(mem), mem, keep)
      decreases act, 2
    {
      alive := TakeFault(act.f, keep);
    }

    /** The handler's instructions and faults; everything from u on and its return address survive. */
    method RunActs(acts: seq<Act>, ghost u: int, ghost keep: iset<int>) returns (alive: bool)
      requires ActsBehave(acts, u, esp, keep) && PAGE <= esp <= u - 8 && u <= UXSTACKTOP - FRAME && upcall != 0
      modifies this
      ensures alive <==> ActsFit(acts, old(esp))
      ensures alive ==> Same(old(mem), mem, u) && Read(mem, u - 8) == Read(old(mem), u - 8)
      ensures alive ==> Kept(old(mem), mem, keep)
      decreases acts, 2
    {
      alive := true;
      if acts == [] {
        return;
      }
      var m0 := mem;
      match acts[0] {
        case Strikes(_) =>
          alive := Strike(acts[0], keep);
          if !alive {
            return;
          }
        case Instr(r, esp', eip', fl, at, word) =>
          mem := Write(mem, at, word);
          regs, esp, eip, flags := r, esp', eip', fl;
      }
      assert Same(m0, mem, u) && Read(mem, u - 8) == Read(m0, u - 8) && Kept(m0, mem, keep);
      alive := RunActs(acts[1..], u, keep);
    }

    /** The first three instructions of the upcall: at the first instruction of the handler its argument is the
        address of the frame. */
    method PushArgument(f: Fault, ghost keep: iset<int>) returns (alive: bool)
      requires PAGE <= esp <= UXSTACKTOP - FRAME && |f.slots| == SLOTS && upcall != 0
      requires SlotsBehave(f, esp, keep, 0, 3)
      modifies this
      ensures alive <==> PAGE <= old(esp) - 8 && SlotsFit(f, old(esp), 0, 3)
      ensures alive ==> esp == old(esp) - 8 && eip == f.handler
      ensures alive ==> Read(mem, esp) == f.slots[3].eip && Read(mem, esp + 4) == old(esp)
      ensures alive ==> Same(old(mem), mem, old(esp)) && Kept(old(mem), mem, keep)
      decreases f, 0
    {
      hide Read, Write, AllBehave, AllFit;
      var u := esp;
      // pushl %esp; below the page it faults again, and that fault's frame is refused
      alive := TakeAll(f.slots[0].faults, f.slots[0].eip, keep);
      if !alive { return; }
      if esp - 4 < PAGE { return false; }
      Pushed(mem, esp - 4, esp, u, keep);
      mem := Write(mem, esp - 4, esp);
      esp := esp - 4;
      ghost var m1 := mem;
      // movl _pgfault_handler, %eax
      alive := TakeAll(f.slots[1].faults, f.slots[1].eip, keep);
      if !alive { return; }
      regs := regs.(eax := f.handler);
      // call *%eax
      alive := TakeAll(f.slots[2].faults, f.slots[2].eip, keep);
      if !alive { return; }
      SameRead(m1, mem, esp, esp);
      if esp - 4 < PAGE { return false; }
      Pushed(mem, esp - 4, f.slots[3].eip, esp, keep);
      ReadOther(mem, esp - 4, f.slots[3].eip, esp);
      mem := Write(mem, esp - 4, f.slots[3].eip);
      esp := esp - 4;
      eip := regs.eax;
    }

    /** From the first instruction of the upcall to the addl that drops the handler's argument. */
    method CallHandler(f: Fault, ghost keep: iset<int>) returns (alive: bool)
      requires PAGE <= esp <= UXSTACKTOP - FRAME && |f.slots| == SLOTS && upcall != 0
      requires SlotsBehave(f, esp, keep, 0, 4)
      requires ActsBehave(f.acts, esp, esp - 8, keep)
      modifies this
      ensures alive <==>
        && PAGE <= old(esp) - 8
        && SlotsFit(f, old(esp), 0, 4)
        && ActsFit(f.acts, old(esp) - 8)
      ensures alive ==> esp == old(esp) && Same(old(mem), mem, esp) && Kept(old(mem), mem, keep)
      decreases f, 1
    {
      hide Read, Write, AllBehave, ActsBehave, AllFit, ActsFit;
      var u := esp;
      alive := PushArgument(f, keep);
      if !alive { return; }
      alive := RunActs(f.acts, u, keep);
      if !alive { return; }
      // the handler's ret, with esp as it found it
      esp := u - 8;
      regs := f.after;
      eip := Read(mem, esp);
      esp := esp + 4;
      // addl $4, %esp
      alive := TakeAll(f.slots[3].faults, f.slots[3].eip, keep);
      if !alive { return; }
      esp := esp + 4;
      flags := f.slots[3].flags;
    }

    /** From a fault to the first instruction of the handler: it finds, where its argument points, the faulting
        address and the error code, and the address it returns to is in the upcall. */
    method EnterHandler(f: Fault, ghost keep: iset<int>) returns (alive: bool)
      requires Behaves(f, esp, keep) && 4 <= esp <= UXSTACKTOP && upcall != 0
      modifies this
      ensures alive <==> PAGE <= FrameAt(old(esp)) - 8 && |f.slots| == SLOTS && SlotsFit(f, FrameAt(old(esp)), 0, 3)
      ensures alive ==> eip == f.handler && Read(mem, esp) == f.slots[3].eip
      ensures alive ==> var frame := Read(mem, esp + 4); Read(mem, frame) == f.va && Read(mem, frame + 4) == f.err
    {
      hide Read, Tail, SlotsBehave, ActsBehave, Inner, Behaves;
      BehavesInParts(f, esp, keep);
      FrameBelowTop(esp);
      ghost var e := esp;
      FewerBehave(f, FrameAt(esp), Inner(keep, esp));
      alive := Deliver(f.va, f.err, f.oesp);
      if !alive {
        return;
      }
      ghost var m := mem;
      var u := esp;
      alive := PushArgument(f, Inner(keep, e));
      if alive {
        SameRead(m, mem, u, u);
        SameRead(m, mem, u, u + 4);
      }
    }

    /** The four instructions that load the trap-time eip and lower the trap-time esp in the frame. */
    method LowerEsp(f: Fault, ghost ws: seq<Word>, ghost keep: iset<int>) returns (alive: bool)
      requires PAGE <= esp && esp + FRAME <= UXSTACKTOP && |f.slots| == SLOTS && upcall != 0
      requires |ws| == 13 && Tail(mem, esp, ws, 0) && 4 <= ws[12]
      requires SlotsBehave(f, esp, keep, 4, 8)
      modifies this
      ensures alive <==> SlotsFit(f, old(esp), 4, 8)
      ensures alive ==> esp == old(esp) && regs.eax == ws[10] && regs.ebx == ws[12] - 4
      ensures alive ==> Tail(mem, esp, ws[12 := ws[12] - 4], 0)
      ensures alive ==> Same(old(mem), mem, esp + FRAME) && Kept(old(mem), mem, keep)
      decreases f, 0
    {
      hide Read, Write, Same, Kept, Tail, AllBehave, AllFit;
      var u := esp;
      ghost var m0 := mem;
      // movl 40(%esp), %eax
      alive := TakeAll(f.slots[4].faults, f.slots[4].eip, keep);
      if !alive { return; }
      ghost var m4 := mem;
      StayIntact(m0, m0, m4, u, ws, 0, 0, keep);
      WordAt(m4, u, ws, 0, 10);
      regs := regs.(eax := Read(mem, esp + 40));
      // movl 48(%esp), %ebx
      alive := TakeAll(f.slots[5].faults, f.slots[5].eip, keep);
      if !alive { return; }
      ghost var m5 := mem;
      StayIntact(m0, m4, m5, u, ws, 0, 0, keep);
      WordAt(m5, u, ws, 0, 12);
      regs := regs.(ebx := Read(mem, esp + 48));
      // subl $4, %ebx
      alive := TakeAll(f.slots[6].faults, f.slots[6].eip, keep);
      if !alive { return; }
      ghost var m6 := mem;
      StayIntact(m0, m5, m6, u, ws, 0, 0, keep);
      regs := regs.(ebx := regs.ebx - 4);
      flags := f.slots[6].flags;
      // movl %ebx, 48(%esp)
      alive := TakeAll(f.slots[7].faults, f.slots[7].eip, keep);
      if !alive { return; }
      ghost var m7 := mem;
      StayIntact(m0, m6, m7, u, ws, 0, 0, keep);
      FrameStored(mem, u, ws, regs.ebx, keep);
      mem := Write(mem, esp + 48, regs.ebx);
      SameUp(m0, m7, u, u + FRAME);
      Chain(m0, m7, mem, u + FRAME, keep);
    }

    /** ... and the one that puts the trap-time eip below the trap-time stack. */
    method StoreEip(f: Fault, ghost ws: seq<Word>, ghost keep: iset<int>) returns (alive: bool)
      requires PAGE <= esp && esp + FRAME <= UXSTACKTOP && |f.slots| == SLOTS && upcall != 0
      requires |ws| == 13 && Tail(mem, esp, ws, 0) && 4 <= ws[12] <= UXSTACKTOP
      requires OnPage(ws[12]) ==> esp + FRAME == ws[12] - 4
      requires !OnPage(ws[12]) ==> esp + FRAME == UXSTACKTOP
      requires SlotsBehave(f, esp, keep, 4, 9)
      modifies this
      ensures alive <==> SlotsFit(f, old(esp), 4, 9)
      ensures alive ==> esp == old(esp) && Read(mem, ws[12] - 4) == ws[10]
      ensures alive ==> forall k :: 0 <= k < 12 ==> Read(mem, esp + 4 * k) == ws[k]
      ensures alive ==> Read(mem, esp + 48) == if ws[12] == UXSTACKTOP then ws[10] else ws[12] - 4
      ensures alive && OnPage(ws[12]) ==> Same(old(mem), mem, ws[12])
      ensures alive ==> KeptBut(old(mem), mem, keep, ws[12] - 4)
      decreases f, 1
    {
      hide Read, Write, Same, Kept, Tail, AllBehave, AllFit;
      var u := esp;
      ghost var m0 := mem;
      alive := LowerEsp(f, ws, keep);
      if !alive { return; }
      ghost var m7 := mem;
      // movl %eax, (%ebx)
      alive := TakeAll(f.slots[8].faults, f.slots[8].eip, keep);
      if !alive { return; }
      TailKept(m7, mem, u, ws[12 := ws[12] - 4], 0, 0);
      ScratchStored(mem, u, ws, regs.eax, keep);
      SameUp(m7, mem, u, u + FRAME);
      Chain(m0, m7, mem, u + FRAME, keep);
      ghost var m8 := mem;
      mem := Write(mem, regs.ebx, regs.eax);
      ScratchChain(m0, m8, mem, u + FRAME, ws[12], keep);
    }

    /** The instructions that restore the trap-time registers from the words ws of the frame. */
    method PopRegs(f: Fault, ghost ws: seq<Word>, ghost keep: iset<int>) returns (alive: bool)
      requires PAGE <= esp && esp + FRAME <= UXSTACKTOP && |f.slots| == SLOTS && upcall != 0
      requires |ws| == 13 && Tail(mem, esp, ws, 0)
      requires SlotsBehave(f, esp, keep, 9, 12)
      modifies this
      ensures alive <==> SlotsFit(f, old(esp), 9, 12)
      ensures alive ==> regs == Regs(ws[2], ws[3], ws[4], ws[6], ws[7], ws[8], ws[9]) && esp == old(esp) + 44
      ensures alive ==> Intact(old(mem), mem, old(esp), ws, 10, keep)
      decreases f, 0
    {
      hide Read, Same, Kept, Tail, AllBehave, AllFit;
      var u := esp;
      ghost var m0 := mem;
      // addl $8, %esp
      alive := TakeAll(f.slots[9].faults, f.slots[9].eip, keep);
      if !alive { return; }
      ghost var m9 := mem;
      StayIntact(m0, m0, m9, u, ws, 0, 0, keep);
      esp := esp + 8;
      flags := f.slots[9].flags;
      // popal
      alive := TakeAll(f.slots[10].faults, f.slots[10].eip, keep);
      if !alive { return; }
      ghost var m10 := mem;
      StayIntact(m0, m9, m10, u, ws, 0, 2, keep);
      PopsAll(m0, mem, u, ws, keep);
      regs := PopAll(mem, esp);
      esp := esp + 32;
      // addl $4, %esp
      alive := TakeAll(f.slots[11].faults, f.slots[11].eip, keep);
      if !alive { return; }
      StayIntact(m0, m10, mem, u, ws, 2, 10, keep);
      esp := esp + 4;
      flags := f.slots[11].flags;
    }

    /** ... and the flags; the last but one takes esp from the frame, the last eip from where that points. */
    method Pop(f: Fault, ghost ws: seq<Word>, ghost keep: iset<int>) returns (alive: bool)
      requires PAGE <= esp && esp + FRAME <= UXSTACKTOP && |f.slots| == SLOTS && upcall != 0
      requires |ws| == 13 && Tail(mem, esp, ws, 0)
      requires SlotsBehave(f, esp, keep, 9, 14)
      modifies this
      ensures alive <==> SlotsFit(f, old(esp), 9, 14)
      ensures alive ==> regs == Regs(ws[2], ws[3], ws[4], ws[6], ws[7], ws[8], ws[9]) && flags == ws[11]
      ensures alive ==> esp == Past(ws[12]) && eip == Read(mem, ws[12])
      ensures alive ==> Same(old(mem), mem, old(esp) + 48) && Kept(old(mem), mem, keep)
      decreases f, 1
    {
      hide Read, Same, Kept, Tail, AllBehave, AllFit;
      var u := esp;
      ghost var m0 := mem;
      alive := PopRegs(f, ws, keep);
      if !alive { return; }
      ghost var m11 := mem;
      // popfl
      alive := TakeAll(f.slots[12].faults, f.slots[12].eip, keep);
      if !alive { return; }
      ghost var m12 := mem;
      StayIntact(m0, m11, m12, u, ws, 10, 11, keep);
      flags := Read(mem, esp);
      esp := esp + 4;
      // popl %esp
      alive := TakeAll(f.slots[13].faults, f.slots[13].eip, keep);
      if !alive { return; }
      StayIntact(m0, m12, mem, u, ws, 11, 12, keep);
      esp := Read(mem, esp);
      // ret
      eip := Read(mem, esp);
      esp := Past(esp);
    }

    /** The upcall after the handler; the words ws of the frame still lie at esp. */
    method Resume(f: Fault, ghost ws: seq<Word>, ghost keep: iset<int>) returns (alive: bool)
      requires |ws| == 13 && 4 <= ws[12] <= UXSTACKTOP && esp == FrameAt(ws[12]) && PAGE <= esp
      requires |f.slots| == SLOTS && upcall != 0 && Tail(mem, esp, ws, 0)
      requires SlotsBehave(f, esp, Inner(keep, ws[12]), 4, 9) && SlotsBehave(f, esp, Inner(keep, ws[12]), 9, 14)
      modifies this
      ensures alive <==> SlotsFit(f, old(esp), 4, 9) && SlotsFit(f, old(esp), 9, 14)
      ensures alive ==> regs == Regs(ws[2], ws[3], ws[4], ws[6], ws[7], ws[8], ws[9]) && flags == ws[11]
      ensures alive ==>
        (esp == ws[12] && eip == ws[10] <==> ws[12] != UXSTACKTOP || ws[10] == UXSTACKTOP - 4)
      ensures alive && OnPage(ws[12]) ==> Same(old(mem), mem, ws[12])
      ensures alive ==> KeptBut(old(mem), mem, Inner(keep, ws[12]), ws[12] - 4)
      decreases f, 2
    {
      hide Read, Same, Kept, KeptBut, Tail, SlotsBehave, SlotsFit, Inner;
      ghost var m1, u, e, ip := mem, esp, ws[12], ws[10];
      alive := StoreEip(f, ws, Inner(keep, e));
      if !alive {
        return;
      }
      ghost var m2 := mem;
      ghost var ws2 := ws[12 := if e == UXSTACKTOP then ip else e - 4];
      TailAll(mem, u, ws2);
      alive := Pop(f, ws2, Inner(keep, e));
      if alive {
        ReturnsExactly(m2, mem, u, e, ip, keep);
        UnwindMemory(m1, m2, mem, u, e, Inner(keep, e));
      }
    }

    /** The whole upcall, from its first instruction to the return; ws is the frame. */
    method RunUpcall(f: Fault, ghost ws: seq<Word>, ghost keep: iset<int>) returns (alive: bool)
      requires |ws| == 13 && 4 <= ws[12] <= UXSTACKTOP && esp == FrameAt(ws[12]) && PAGE <= esp
      requires |f.slots| == SLOTS && upcall != 0 && Tail(mem, esp, ws, 0)
      requires SlotsBehave(f, esp, Inner(keep, ws[12]), 0, 4) && ActsBehave(f.acts, esp, esp - 8, Inner(keep, ws[12]))
      requires SlotsBehave(f, esp, Inner(keep, ws[12]), 4, 9) && SlotsBehave(f, esp, Inner(keep, ws[12]), 9, 14)
      modifies this
      ensures alive <==> PAGE <= old(esp) - 8 && SlotsFit(f, old(esp), 0, 4) && ActsFit(f.acts, old(esp) - 8)
                         && SlotsFit(f, old(esp), 4, 9) && SlotsFit(f, old(esp), 9, 14)
      ensures alive ==> regs == Regs(ws[2], ws[3], ws[4], ws[6], ws[7], ws[8], ws[9]) && flags == ws[11]
      ensures alive ==>
        (esp == ws[12] && eip == ws[10] <==> ws[12] != UXSTACKTOP || ws[10] == UXSTACKTOP - 4)
      ensures alive && OnPage(ws[12]) ==> Same(old(mem), mem, ws[12])
      ensures alive ==> KeptBut(old(mem), mem, Inner(keep, ws[12]), ws[12] - 4)
      decreases f, 3
    {
      hide Read, Same, Kept, KeptBut, Tail, SlotsBehave, SlotsFit, ActsBehave, ActsFit, Inner, OnPage;
      assert esp <= UXSTACKTOP - FRAME;
      hide FrameAt;
      ghost var m0, u := mem, esp;
      alive := CallHandler(f, Inner(keep, ws[12]));
      if !alive {
        return;
      }
      ghost var m1 := mem;
      TailKept(m0, m1, u, ws, 0, 0);
      alive := Resume(f, ws, keep);
      if alive {
        HandlerMemory(m0, m1, mem, u, ws[12], Inner(keep, ws[12]));
      }
    }

    /** One user page fault: delivery, the upcall with its handler, and the return.  Either some frame
        does not fit on the exception page and the environment is destroyed, or every register, the
        flags, esp and eip come back, unless the trap-time stack ended exactly at the top of the
        exception page.  What was live on the page at the time, and every byte that no handler stored
        to, is as before, but for the one word below the trap-time stack. */
    method TakeFault(f: Fault, ghost keep: iset<int>) returns (alive: bool)
      requires Behaves(f, esp, keep) && 4 <= esp <= UXSTACKTOP && upcall != 0
      modifies this
      ensures alive <==> Fits(f, old(esp))
      ensures alive ==>
        ((regs == old(regs) && flags == old(flags) && esp == old(esp) && eip == old(eip)) <==>
         (old(esp) != UXSTACKTOP || old(eip) == UXSTACKTOP - 4))
      ensures alive && OnPage(old(esp)) ==> Same(old(mem), mem, old(esp))
      ensures alive ==> KeptBut(old(mem), mem, keep, old(esp) - 4)
      decreases f, 4
    {
      hide *;
      BehavesInParts(f, esp, keep);
      FitsInParts(f, esp);
      FrameBelowTop(esp);
      ghost var m, e := mem, esp;
      ghost var ws := FrameWords(f.va, f.err, regs, f.oesp, eip, flags, esp);
      FrameWordsAre(f.va, f.err, regs, f.oesp, eip, flags, esp);
      alive := Deliver(f.va, f.err, f.oesp);
      if !alive {
        return;
      }
      ghost var m0 := mem;
      alive := RunUpcall(f, ws, keep);
      if alive {
        MemoryAfter(m, m0, mem, FrameAt(e), e, keep);
      }
    }
  }
}
