/** The first page of a spawned program's stack: init_stack (tps/lib/spawn.c). */
module InitStack {

  import opened LittleEndian
  import opened Options

  const PGSIZE: int := 0x1000
  const UTEMP: int := 0x0040_0000
  const USTACKTOP: int := 0xEEBF_E000

  /** UTEMP2USTACK of the address UTEMP + o. */
  function Child(o: int): int { USTACKTOP - PGSIZE + o }

  datatype Outcome =
    | NoMem                 // the arguments do not fit
    | Failed                // sys_page_alloc or sys_page_map failed
    | Stray                 // a store outside the page at UTEMP
    | Ready(esp: Word)

  /** Bytes taken by the first i strings, each with its null. */
  function Size(argv: seq<seq<Byte>>, i: nat): (n: nat)
    requires i <= |argv|
    ensures n >= i
  {
    if i == 0 then 0 else Size(argv, i - 1) + |argv[i - 1]| + 1
  }

  function RoundDown4(x: int): int { x - x % 4 }

  /** Where the lowest of the words would go, counted from UTEMP, in unbounded arithmetic. */
  function Lowest(argv: seq<seq<Byte>>): int {
    RoundDown4(PGSIZE - Size(argv, |argv|)) - 4 * (|argv| + 1) - 8
  }

  predicate CStrings(argv: seq<seq<Byte>>) {
    |argv| < 0x4000_0000 && forall i :: 0 <= i < |argv| ==> 0 !in argv[i]
  }

  // ---------------------------------------------------------------------------------------------
  // What the child finds, reading in its own addresses.

  predicate InPage(a: int, n: int) {
    Child(0) <= a && a + n <= USTACKTOP
  }

  function WordAt(page: seq<Byte>, a: int): Word
    requires |page| == PGSIZE && InPage(a, 4)
  {
    var o := a - Child(0);
    Join(page[o], page[o + 1], page[o + 2], page[o + 3])
  }

  /** The null-terminated string at a. */
  function StringAt(page: seq<Byte>, a: int): Option<seq<Byte>>
    requires |page| == PGSIZE
    decreases USTACKTOP - a
  {
    if !InPage(a, 1) then None
    else if page[a - Child(0)] == 0 then Some([])
    else
      var rest := StringAt(page, a + 1);
      if rest.None? then None else Some([page[a - Child(0)]] + rest.value)
  }

  /** The strings that the n pointers from a on point to. */
  function StringsAt(page: seq<Byte>, a: int, n: nat): Option<seq<seq<Byte>>>
    requires |page| == PGSIZE
    decreases n
  {
    if n == 0 then Some([])
    else if !InPage(a, 4) then None
    else
      var first := StringAt(page, WordAt(page, a));
      var rest := StringsAt(page, a + 4, n - 1);
      if first.None? || rest.None? then None else Some([first.value] + rest.value)
  }

  /** main(argc, argv) as the stack pointer gives them: the strings, if a null pointer follows. */
  function Arguments(page: seq<Byte>, esp: int): Option<seq<seq<Byte>>>
    requires |page| == PGSIZE
  {
    if !InPage(esp, 8) then None
    else
      var argc := WordAt(page, esp);
      var av := WordAt(page, esp + 4);
      if InPage(av + 4 * argc, 4) && WordAt(page, av + 4 * argc) == 0 then StringsAt(page, av, argc) else None
  }

  // ---------------------------------------------------------------------------------------------
  // Arithmetic modulo 2^32.

  lemma SizeMonotone(argv: seq<seq<Byte>>, i: nat, j: nat)
    requires i <= j <= |argv|
    ensures Size(argv, i) + (j - i) <= Size(argv, j)
    decreases j - i
  {
    if i < j {
      SizeMonotone(argv, i, j - 1);
    }
  }

  lemma WrapAgain(x: int, k: int)
    ensures Wrap(Wrap(x) + k) == Wrap(x + k)
  {
  }

  lemma WrapSmall(x: int)
    requires 0 <= x < 0x1_0000_0000
    ensures Wrap(x) == x
  {
  }

  lemma WrapMinus(x: int, y: int)
    ensures Wrap(x - Wrap(y)) == Wrap(x - y)
  {
  }

  lemma PlusMultipleOf4(r: int, k: int)
    ensures (r + 4 * k) % 4 == r % 4
  {
  }

  lemma WrapMod4(x: int)
    ensures RoundDown4(Wrap(x)) == Wrap(x) - x % 4
  {
    var q := x / 0x1_0000_0000;
    var r := Wrap(x);
    assert x == r + 4 * (0x4000_0000 * q);
    PlusMultipleOf4(r, 0x4000_0000 * q);
  }

  lemma SizeNext(argv: seq<seq<Byte>>, i: nat)
    requires i < |argv|
    ensures Size(argv, i + 1) == Size(argv, i) + |argv[i]| + 1
  {
  }

  lemma RoundDownBounds(x: int)
    ensures x - 3 <= RoundDown4(x) <= x
  {
  }

  lemma RoundDownShift(x: int, k: int)
    ensures RoundDown4(x + 4 * k) == RoundDown4(x) + 4 * k
  {
    PlusMultipleOf4(x, k);
  }

  /** RoundDown4(Wrap(x)) + k modulo 2^32. */
  lemma WrapRoundDown(x: int, k: int)
    ensures Wrap(RoundDown4(Wrap(x)) + k) == Wrap(RoundDown4(x) + k)
  {
    WrapMod4(x);
    WrapAgain(x, k - x % 4);
  }

  /** The two tests of the source see Lowest modulo 2^32. */
  lemma WrappedLowest(total: nat, argc: nat)
    ensures var store := Wrap(UTEMP + PGSIZE - Wrap(total));
      var av := Wrap(RoundDown4(store) - 4 * (argc + 1));
      && store == Wrap(UTEMP + PGSIZE - total)
      && av == Wrap(UTEMP + RoundDown4(PGSIZE - total) - 4 * (argc + 1))
      && Wrap(av - 8) == Wrap(UTEMP + RoundDown4(PGSIZE - total) - 4 * (argc + 1) - 8)
  {
    hide Wrap, RoundDown4;
    WrapMinus(UTEMP + PGSIZE, total);
    var x := UTEMP + PGSIZE - total;
    WrapRoundDown(x, -4 * (argc + 1));
    assert x == PGSIZE - total + 4 * 0x0010_0000;
    RoundDownShift(PGSIZE - total, 0x0010_0000);
    WrapAgain(UTEMP + RoundDown4(PGSIZE - total) - 4 * (argc + 1), -8);
  }

  // ---------------------------------------------------------------------------------------------
  // What is in the page.

  /** Word w is at offset o. */
  predicate WordIs(page: seq<Byte>, o: int, w: int)
  {
    && |page| == PGSIZE && 0 <= o <= PGSIZE - 4 && 0 <= w < 0x1_0000_0000
    && Join(page[o], page[o + 1], page[o + 2], page[o + 3]) == w
  }

  /** The string t and its null are at offset o. */
  predicate StringIs(page: seq<Byte>, o: int, t: seq<Byte>) {
    && |page| == PGSIZE && 0 <= o && o + |t| < PGSIZE
    && page[o..o + |t|] == t && page[o + |t|] == 0
  }

  /** The first i pointers, from offset p on, point to the first i strings, from offset f on. */
  ghost predicate Stored(page: seq<Byte>, argv: seq<seq<Byte>>, p: int, f: int, i: nat)
    requires i <= |argv|
  {
    forall j :: 0 <= j < i ==>
      && WordIs(page, p + 4 * j, Child(f + Size(argv, j)))
      && StringIs(page, f + Size(argv, j), argv[j])
  }

  lemma {:induction false} StringFound(page: seq<Byte>, o: int, t: seq<Byte>)
    requires StringIs(page, o, t) && 0 !in t
    ensures StringAt(page, Child(o)) == Some(t)
    decreases |t|
  {
    if t == [] {
    } else {
      assert page[o] == t[0];
      assert page[o + 1..o + |t|] == t[1..];
      StringFound(page, o + 1, t[1..]);
      assert t == [t[0]] + t[1..];
    }
  }

  lemma WordFound(page: seq<Byte>, o: int, w: int, a: int)
    requires WordIs(page, o, w) && a == Child(o)
    ensures InPage(a, 4) && WordAt(page, a) == w
  {
  }

  lemma HeadFound(page: seq<Byte>, argv: seq<seq<Byte>>, o: int)
    requires WordIs(page, o, |argv|) && WordIs(page, o + 4, Child(o + 8))
    ensures InPage(Child(o), 8) && WordAt(page, Child(o)) == |argv| && WordAt(page, Child(o) + 4) == Child(o) + 8
  {
    WordFound(page, o, |argv|, Child(o));
    WordFound(page, o + 4, Child(o + 8), Child(o + 4));
    hide WordIs, WordAt;
  }

  lemma {:induction false} StringsFound(page: seq<Byte>, argv: seq<seq<Byte>>, p: int, f: int, i: nat, a: int)
    requires i <= |argv| && Stored(page, argv, p, f, |argv|) && CStrings(argv) && |page| == PGSIZE
    requires a == Child(p + 4 * i)
    ensures StringsAt(page, a, |argv| - i) == Some(argv[i..])
    decreases |argv| - i
  {
    hide WordAt, WordIs, Size;
    if i < |argv| {
      var o := f + Size(argv, i);
      WordFound(page, p + 4 * i, Child(o), a);
      StringFound(page, o, argv[i]);
      StringsFound(page, argv, p, f, i + 1, a + 4);
      hide Stored, Size, StringIs;
      assert argv[i..] == [argv[i]] + argv[i + 1..];
    } else {
      assert argv[i..] == [];
    }
  }

  lemma ArgumentsFound(page: seq<Byte>, argv: seq<seq<Byte>>, p: int, f: int)
    requires |page| == PGSIZE && CStrings(argv) && Stored(page, argv, p, f, |argv|)
    requires 8 <= p && p + 4 * |argv| + 4 <= PGSIZE
    requires WordIs(page, p - 8, |argv|) && WordIs(page, p - 4, Child(p)) && WordIs(page, p + 4 * |argv|, 0)
    ensures Arguments(page, Child(p - 8)) == Some(argv)
  {
    hide Size, Stored, StringsAt, CStrings, WordAt;
    var esp := Child(p - 8);
    WordFound(page, p - 8, |argv|, esp);
    WordFound(page, p - 4, Child(p), esp + 4);
    WordFound(page, p + 4 * |argv|, 0, Child(p) + 4 * |argv|);
    hide WordIs, InPage;
    StringsFound(page, argv, p, f, 0, Child(p));
    assert argv[0..] == argv;
    ArgumentsAre(page, esp, |argv|, Child(p));
  }

  lemma ArgumentsAre(page: seq<Byte>, esp: int, argc: nat, av: int)
    requires |page| == PGSIZE && InPage(esp, 8) && WordAt(page, esp) == argc && WordAt(page, esp + 4) == av
    requires InPage(av + 4 * argc, 4) && WordAt(page, av + 4 * argc) == 0
    ensures Arguments(page, esp) == StringsAt(page, av, argc)
  {
    hide WordAt, InPage, StringsAt;
  }

  /** Changes in [lo, hi) only. */
  predicate SameOutside(a: seq<Byte>, b: seq<Byte>, lo: int, hi: int) {
    |a| == |b| && forall x :: 0 <= x < |a| && !(lo <= x < hi) ==> a[x] == b[x]
  }

  lemma WordStays(a: seq<Byte>, b: seq<Byte>, o: int, w: int, lo: int, hi: int)
    requires WordIs(a, o, w) && SameOutside(a, b, lo, hi) && (o + 4 <= lo || hi <= o)
    ensures WordIs(b, o, w)
  {
  }

  lemma StringStays(a: seq<Byte>, b: seq<Byte>, o: int, t: seq<Byte>, lo: int, hi: int)
    requires StringIs(a, o, t) && SameOutside(a, b, lo, hi) && (o + |t| + 1 <= lo || hi <= o)
    ensures StringIs(b, o, t)
  {
    assert a[o..o + |t|] == b[o..o + |t|];
  }

  /** Stores between the pointers and the strings, behind both, or before both. */
  lemma StoredStays(a: seq<Byte>, b: seq<Byte>, argv: seq<seq<Byte>>, p: int, f: int, i: nat, lo: int, hi: int)
    requires i <= |argv| && Stored(a, argv, p, f, i) && SameOutside(a, b, lo, hi)
    requires (p + 4 * i <= lo && hi <= f) || (f + Size(argv, i) <= lo && p + 4 * i <= lo) || (hi <= p && hi <= f)
    ensures Stored(b, argv, p, f, i)
  {
    hide WordIs, StringIs, SameOutside, Size;
    forall j | 0 <= j < i
      ensures WordIs(b, p + 4 * j, Child(f + Size(argv, j))) && StringIs(b, f + Size(argv, j), argv[j])
    {
      SizeMonotone(argv, j + 1, i);
      SizeNext(argv, j);
      var o := f + Size(argv, j);
      assert o + |argv[j]| + 1 <= f + Size(argv, i);
      WordStays(a, b, p + 4 * j, Child(o), lo, hi);
      StringStays(a, b, o, argv[j], lo, hi);
    }
  }

  lemma SizeZero(argv: seq<seq<Byte>>)
    ensures Size(argv, 0) == 0
  {
  }

  lemma StoredNone(page: seq<Byte>, argv: seq<seq<Byte>>, p: int, f: int)
    ensures Stored(page, argv, p, f, 0)
  {
  }

  /** One round of the loop: the i-th pointer, then the i-th string. */
  lemma StoredNext(a: seq<Byte>, b: seq<Byte>, c: seq<Byte>, argv: seq<seq<Byte>>, p: int, f: int, i: nat)
    requires i < |argv| && Stored(a, argv, p, f, i) && 0 <= p && p + 4 * |argv| <= f
    requires var o := f + Size(argv, i);
      && SameOutside(a, b, p + 4 * i, p + 4 * i + 4) && WordIs(b, p + 4 * i, Child(o))
      && SameOutside(b, c, o, o + |argv[i]| + 1) && StringIs(c, o, argv[i])
    ensures Stored(c, argv, p, f, i + 1)
  {
    hide WordIs, StringIs, SameOutside, Size;
    SizeMonotone(argv, 0, i);
    SizeZero(argv);
    var o := f + Size(argv, i);
    StoredStays(a, b, argv, p, f, i, p + 4 * i, p + 4 * i + 4);
    StoredStays(b, c, argv, p, f, i, o, o + |argv[i]| + 1);
    WordStays(b, c, p + 4 * i, Child(o), o, o + |argv[i]| + 1);
  }

  // ---------------------------------------------------------------------------------------------
  // The code.

  /** *(uint32_t *) a = w, if the page at UTEMP covers the four bytes. */
  method StoreWord(page: array<Byte>, a: Word, w: Word) returns (ok: bool)
    requires page.Length == PGSIZE
    modifies page
    ensures ok <==> UTEMP <= a && a + 4 <= UTEMP + PGSIZE
    ensures ok ==> WordIs(page[..], a - UTEMP, w)
    ensures SameOutside(old(page[..]), page[..], a - UTEMP, a - UTEMP + 4)
    ensures !ok ==> page[..] == old(page[..])
  {
    if a < UTEMP || a + 4 > UTEMP + PGSIZE {
      return false;
    }
    var o := a - UTEMP;
    JoinBytes(w);
    page[o], page[o + 1], page[o + 2], page[o + 3] := ByteOf(w, 0), ByteOf(w, 1), ByteOf(w, 2), ByteOf(w, 3);
    return true;
  }

  /** strcpy(a, t): stops at the first byte outside the page. */
  method StrCpy(page: array<Byte>, a: Word, t: seq<Byte>) returns (ok: bool)
    requires page.Length == PGSIZE && 0 !in t
    modifies page
    ensures ok <==> UTEMP <= a && a + |t| < UTEMP + PGSIZE
    ensures ok ==> StringIs(page[..], a - UTEMP, t)
    ensures SameOutside(old(page[..]), page[..], a - UTEMP, a - UTEMP + |t| + 1)
  {
    var b: nat := 0;
    while b <= |t|
      invariant b <= |t| + 1 && (b > 0 ==> UTEMP <= a && a + b <= UTEMP + PGSIZE)
      invariant forall x :: 0 <= x < b && x < |t| ==> a + x < UTEMP + PGSIZE && page[a - UTEMP + x] == t[x]
      invariant b > |t| ==> page[a - UTEMP + |t|] == 0
      invariant SameOutside(old(page[..]), page[..], a - UTEMP, a - UTEMP + b)
    {
      if !(UTEMP <= a + b < UTEMP + PGSIZE) {
        return false;
      }
      page[a - UTEMP + b] := if b < |t| then t[b] else 0;
      b := b + 1;
    }
    ok := true;
    assert page[..][a - UTEMP..a - UTEMP + |t|] == t;
  }

  /** The stack pointer is the highest multiple of 4 that leaves room for the strings and the words. */
  lemma LowestIs(argv: seq<seq<Byte>>)
    ensures Child(Lowest(argv)) % 4 == 0
    ensures USTACKTOP - 4 < Child(Lowest(argv)) + 8 + 4 * (|argv| + 1) + Size(argv, |argv|) <= USTACKTOP
  {
    RoundDownBounds(PGSIZE - Size(argv, |argv|));
    hide Size;
  }

  /** The size test catches what is up to UTEMP bytes too long; beyond that, and up to 4 GB, the
      addresses wrap round and the test is passed. */
  lemma OversizeExactly(argv: seq<seq<Byte>>)
    requires -0x1_0000_0000 <= Lowest(argv)
    ensures Wrap(UTEMP + Lowest(argv)) >= UTEMP <==> Lowest(argv) >= 0 || Lowest(argv) < -UTEMP
  {
    var v := UTEMP + Lowest(argv);
    RoundDownBounds(PGSIZE - Size(argv, |argv|));
    hide Size, RoundDown4;
    WrapAgain(v, 0x1_0000_0000);
    assert Wrap(v) == Wrap(v + 0x1_0000_0000) by {
      assert (v + 0x1_0000_0000) % 0x1_0000_0000 == v % 0x1_0000_0000;
    }
    hide Wrap;
    if v >= 0 {
      WrapSmall(v);
    } else {
      WrapSmall(v + 0x1_0000_0000);
    }
  }

  /** In the regular case nothing wraps and the pointers end where the strings begin. */
  lemma LowestFits(argv: seq<seq<Byte>>)
    ensures var size := Size(argv, |argv|);
      var store := Wrap(UTEMP + PGSIZE - size);
      var av := Wrap(UTEMP + RoundDown4(PGSIZE - size) - 4 * (|argv| + 1));
      Lowest(argv) >= 0 ==>
        && Wrap(UTEMP + Lowest(argv)) >= UTEMP
        && store == UTEMP + PGSIZE - size && av == UTEMP + Lowest(argv) + 8 && Wrap(av - 8) == av - 8
        && av + 4 * |argv| + 4 <= store && Wrap(store + size) == UTEMP + PGSIZE
  {
    hide Size, Wrap, RoundDown4;
    RoundDownBounds(PGSIZE - Size(argv, |argv|));
    if Lowest(argv) >= 0 {
      WrapSmall(UTEMP + Lowest(argv));
      WrapSmall(UTEMP + Lowest(argv) + 8);
      WrapSmall(UTEMP + PGSIZE - Size(argv, |argv|));
      WrapSmall(UTEMP + PGSIZE);
    }
  }

  /** If all the strings went where the page is, the words below them do too. */
  lemma StringsInPage(argv: seq<seq<Byte>>, store: Word)
    requires argv != [] ==> UTEMP <= store && store + Size(argv, |argv|) <= UTEMP + PGSIZE
    requires Wrap(UTEMP + Lowest(argv)) >= UTEMP
    ensures Lowest(argv) >= 0
  {
    hide Size;
    SizeMonotone(argv, 0, |argv|);
    SizeZero(argv);
    RoundDownBounds(PGSIZE - Size(argv, |argv|));
    hide Size, RoundDown4, Wrap;
    var v := UTEMP + Lowest(argv);
    assert 0 <= v < 0x1_0000_0000;
    WrapSmall(v);
  }

  /** The loop that stores the pointers and copies the strings, from argv_store and string_store. */
  method StoreArguments(page: array<Byte>, argv: seq<seq<Byte>>, av: Word, store0: Word) returns (ok: bool, store: Word)
    requires page.Length == PGSIZE && CStrings(argv)
    modifies page
    ensures ok ==> argv == [] || (UTEMP <= store0 && store0 + Size(argv, |argv|) <= UTEMP + PGSIZE)
    ensures ok ==> store == Wrap(store0 + Size(argv, |argv|))
    ensures
      UTEMP <= av && av + 4 * |argv| <= store0 && store0 + Size(argv, |argv|) <= UTEMP + PGSIZE ==>
      ok && Stored(page[..], argv, av - UTEMP, store0 - UTEMP, |argv|)
  {
    hide Size, Stored, Wrap, StringIs, WordIs, SameOutside;
    ghost var fits :=
      UTEMP <= av && av + 4 * |argv| <= store0 && store0 + Size(argv, |argv|) <= UTEMP + PGSIZE;
    store := store0;
    SizeZero(argv);
    WrapSmall(store0);
    StoredNone(page[..], argv, av - UTEMP, store0 - UTEMP);
    var i: nat := 0;
    while i < |argv|
      invariant i <= |argv| && store == Wrap(store0 + Size(argv, i))
      invariant i > 0 ==> UTEMP <= store0 && store0 + Size(argv, i) <= UTEMP + PGSIZE
      invariant i == 0 ==> store == store0
      invariant i > 0 || fits ==> store == store0 + Size(argv, i)
      invariant fits ==> Stored(page[..], argv, av - UTEMP, store0 - UTEMP, i)
    {
      ghost var p0, size := page[..], Size(argv, i);
      SizeNext(argv, i);
      SizeMonotone(argv, i + 1, |argv|);
      SizeZero(argv);
      if fits {
        WrapSmall(av + 4 * i);
        WrapSmall(Child(store - UTEMP));
      }
      ok := StoreWord(page, Wrap(av + 4 * i), Wrap(Child(store - UTEMP)));
      if !ok {
        return;
      }
      ghost var p1 := page[..];
      ok := StrCpy(page, store, argv[i]);
      if !ok {
        return;
      }
      if fits {
        StoredNext(p0, p1, page[..], argv, av - UTEMP, store0 - UTEMP, i);
      }
      WrapAgain(store0 + size, |argv[i]| + 1);
      WrapSmall(store + |argv[i]| + 1);
      store := Wrap(store + |argv[i]| + 1);
      i := i + 1;
    }
    ok := true;
  }

  /** init_stack; page is what the caller has at UTEMP, and the child afterwards below USTACKTOP.
      It refuses the arguments, or the child finds exactly them, unless they are so long that the
      addresses wrap round: then it may store outside the page.  */
  method Init(page: array<Byte>, argv: seq<seq<Byte>>, allocOk: bool, mapOk: bool) returns (r: Outcome)
    requires page.Length == PGSIZE && CStrings(argv)
    modifies page
    ensures r.NoMem? <==> Wrap(UTEMP + Lowest(argv)) < UTEMP
    ensures r.Ready? <==> Lowest(argv) >= 0 && allocOk && mapOk
    ensures r.Stray? <==> Lowest(argv) < 0 && Wrap(UTEMP + Lowest(argv)) >= UTEMP && allocOk
    ensures r.Ready? ==> r.esp == Child(Lowest(argv)) && Arguments(page[..], r.esp) == Some(argv)
    ensures r.Ready? ==>
      InPage(r.esp, 8) && WordAt(page[..], r.esp) == |argv| && WordAt(page[..], r.esp + 4) == r.esp + 8
    ensures r.Ready? ==>
      r.esp % 4 == 0 && USTACKTOP - 4 < r.esp + 8 + 4 * (|argv| + 1) + Size(argv, |argv|) <= USTACKTOP
  {
    hide Size, Stored, StringIs, WordIs, WordAt, SameOutside, Arguments, Wrap, RoundDown4, CStrings;
    WrapSmall(0);
    var stringSize: Word := 0;
    var argc: nat := 0;
    SizeZero(argv);
    while argc < |argv|
      invariant argc <= |argv| && stringSize == Wrap(Size(argv, argc))
    {
      SizeNext(argv, argc);
      WrapAgain(Size(argv, argc), |argv[argc]| + 1);
      stringSize := Wrap(stringSize + (|argv[argc]| + 1));
      argc := argc + 1;
    }
    ghost var total := Size(argv, argc);
    WrappedLowest(total, argc);
    LowestFits(argv);
    var store := Wrap(UTEMP + PGSIZE - stringSize);
    var av := Wrap(RoundDown4(store) - 4 * (argc + 1));
    if Wrap(av - 8) < UTEMP {
      return NoMem;
    }
    if !allocOk {
      return Failed;
    }
    var ok, end := StoreArguments(page, argv, av, store);
    if !ok {
      return Stray;
    }
    StringsInPage(argv, store);
    ghost var p, f := av - UTEMP, store - UTEMP;
    ghost var p0 := page[..];
    ok := StoreWord(page, av + 4 * argc, 0);
    ghost var p1 := page[..];
    assert end == UTEMP + PGSIZE;
    ok := StoreWord(page, av - 4, Child(av - UTEMP));
    ghost var p2 := page[..];
    ok := StoreWord(page, av - 8, argc);
    StoredStays(p0, p1, argv, p, f, argc, p + 4 * argc, p + 4 * argc + 4);
    StoredStays(p1, p2, argv, p, f, argc, p - 4, p);
    StoredStays(p2, page[..], argv, p, f, argc, p - 8, p - 4);
    WordStays(p1, p2, p + 4 * argc, 0, p - 4, p);
    WordStays(p2, page[..], p + 4 * argc, 0, p - 8, p - 4);
    WordStays(p2, page[..], p - 4, Child(p), p - 8, p - 4);
    ArgumentsFound(page[..], argv, p, f);
    HeadFound(page[..], argv, p - 8);
    LowestIs(argv);
    if !mapOk {
      return Failed;
    }
    r := Ready(Child(av - 8 - UTEMP));
  }
}
