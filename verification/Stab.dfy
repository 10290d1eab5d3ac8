/** stab_binsearch (tps/kern/kdebug.c) against a linear scan. */
module Stab {

  type Addr = x: int | 0 <= x < 0x1_0000_0000

  /** struct Stab, as far as the search looks at it. */
  datatype Stab = Stab(typ: int, value: Addr)

  /** addr++ */
  function Next(addr: Addr): Addr {
    if addr == 0xFFFF_FFFF then 0 else addr + 1
  }

  predicate Match(stabs: seq<Stab>, k: int, typ: int) {
    0 <= k < |stabs| && stabs[k].typ == typ
  }

  /** Stabs of the wanted type are in increasing order of address between l and r. */
  ghost predicate Ascending(stabs: seq<Stab>, l: int, r: int, typ: int) {
    forall j, k :: l <= j < k <= r && Match(stabs, j, typ) && Match(stabs, k, typ) ==> stabs[j].value < stabs[k].value
  }

  /** If one of them has this very address, none has the next. */
  ghost predicate Clear(stabs: seq<Stab>, l: int, r: int, typ: int, addr: Addr) {
    forall j :: l <= j <= r && Match(stabs, j, typ) && stabs[j].value == addr ==>
      && addr < 0xFFFF_FFFF
      && forall k :: l <= k <= r && Match(stabs, k, typ) ==> stabs[k].value != addr + 1
  }

  /** The last stab of the type at or below addr, scanning down from r; l - 1 if there is none. */
  function LastAtOrBelow(stabs: seq<Stab>, l: int, r: int, typ: int, addr: Addr): (k: int)
    decreases r - l
  {
    if r < l then l - 1
    else if Match(stabs, r, typ) && stabs[r].value <= addr then r
    else LastAtOrBelow(stabs, l, r - 1, typ, addr)
  }

  /** The first stab of the type above addr, scanning up from l; r + 1 if there is none. */
  function FirstAbove(stabs: seq<Stab>, l: int, r: int, typ: int, addr: Addr): (k: int)
    decreases r - l
  {
    if r < l then r + 1
    else if Match(stabs, l, typ) && stabs[l].value > addr then l
    else FirstAbove(stabs, l + 1, r, typ, addr)
  }

  lemma {:induction false} LastIs(stabs: seq<Stab>, l: int, r: int, typ: int, addr: Addr, p: int)
    requires l <= p <= r && Match(stabs, p, typ) && stabs[p].value <= addr
    requires forall k :: p < k <= r && Match(stabs, k, typ) ==> stabs[k].value > addr
    ensures LastAtOrBelow(stabs, l, r, typ, addr) == p
    decreases r - l
  {
    if p < r {
      LastIs(stabs, l, r - 1, typ, addr, p);
    }
  }

  lemma {:induction false} NoLast(stabs: seq<Stab>, l: int, r: int, typ: int, addr: Addr)
    requires l <= r + 1
    requires forall k :: l <= k <= r && Match(stabs, k, typ) ==> stabs[k].value > addr
    ensures LastAtOrBelow(stabs, l, r, typ, addr) == l - 1
    decreases r - l
  {
    if l <= r {
      NoLast(stabs, l, r - 1, typ, addr);
    }
  }

  lemma {:induction false} FirstIs(stabs: seq<Stab>, l: int, r: int, typ: int, addr: Addr, q: int)
    requires l <= q <= r + 1 && (q <= r ==> Match(stabs, q, typ) && stabs[q].value > addr)
    requires forall k :: l <= k < q && Match(stabs, k, typ) ==> stabs[k].value <= addr
    ensures FirstAbove(stabs, l, r, typ, addr) == q
    decreases r - l
  {
    if l < q {
      FirstIs(stabs, l + 1, r, typ, addr, q);
    }
  }

  ghost predicate NoMatch(stabs: seq<Stab>, l: int, r: int, typ: int) {
    forall k :: l <= k <= r ==> !Match(stabs, k, typ)
  }

  /** What the search knows about stabs before l and after r; a is addr, possibly incremented. */
  ghost predicate Narrowed(stabs: seq<Stab>, l0: int, r0: int, typ: int, addr: Addr,
                           l: int, r: int, left: int, a: Addr)
  {
    && (a == addr || (a == addr + 1 && exists k :: l0 <= k <= r0 && Match(stabs, k, typ) && stabs[k].value == addr))
    && (left == l0 || (Match(stabs, left, typ) && stabs[left].value <= addr))
    && (forall k :: l0 <= k < l && Match(stabs, k, typ) ==> stabs[k].value <= addr)
    && (forall k :: r < k <= r0 && Match(stabs, k, typ) ==> stabs[k].value > addr)
  }

  lemma NarrowedFirst(stabs: seq<Stab>, l0: int, r0: int, typ: int, addr: Addr)
    ensures Narrowed(stabs, l0, r0, typ, addr, l0, r0, l0, addr)
  {
  }

  /** The lower bound found so far is no further than the upper one. */
  lemma FoundInside(stabs: seq<Stab>, l0: int, r0: int, typ: int, addr: Addr, l: int, r: int, left: int, a: Addr)
    requires Narrowed(stabs, l0, r0, typ, addr, l, r, left, a) && l0 <= left && (left <= r0 || left == l0)
    ensures left == l0 || (left <= r && Match(stabs, left, typ))
  {
  }

  lemma SkipHalf(stabs: seq<Stab>, l0: int, r0: int, typ: int, addr: Addr, l: int, r: int, left: int, a: Addr, mid: int)
    requires Narrowed(stabs, l0, r0, typ, addr, l, r, left, a) && NoMatch(stabs, l, mid, typ)
    ensures Narrowed(stabs, l0, r0, typ, addr, mid + 1, r, left, a)
  {
  }

  lemma Compare(stabs: seq<Stab>, l0: int, r0: int, typ: int, addr: Addr, l: int, r: int, left: int, a: Addr,
                mid: int, m: int)
    requires Ascending(stabs, l0, r0, typ) && Clear(stabs, l0, r0, typ, addr)
    requires Narrowed(stabs, l0, r0, typ, addr, l, r, left, a)
    requires l0 <= l <= m <= mid <= r <= r0 && Match(stabs, m, typ) && NoMatch(stabs, m + 1, mid, typ)
    ensures stabs[m].value < a ==> Narrowed(stabs, l0, r0, typ, addr, mid + 1, r, m, a)
    ensures stabs[m].value > a ==> Narrowed(stabs, l0, r0, typ, addr, l, m - 1, left, a)
    ensures stabs[m].value == a ==> Narrowed(stabs, l0, r0, typ, addr, m, r, m, Next(a))
  {
  }

  /** stab_binsearch; the two region bounds come in as left0 and right0.  It ends on every input, with
      left > right exactly when the region holds no stab of the type.  When those stabs ascend, and no
      stab is one byte after a stab at addr itself, it brackets addr as a linear scan would, if some
      stab is at or below addr.  If there are stabs of the type and all are above addr, the bounds it
      leaves do not say so. */
  method StabBinsearch(stabs: seq<Stab>, left0: int, right0: int, typ: int, addr0: Addr) returns (left: int, right: int)
    requires 0 <= left0 && right0 < |stabs| <= 0x4000_0000
    ensures left > right <==> NoMatch(stabs, left0, right0, typ)
    ensures NoMatch(stabs, left0, right0, typ) ==> left == left0 && right == left0 - 1
    ensures Ascending(stabs, left0, right0, typ) && Clear(stabs, left0, right0, typ, addr0)
            && !NoMatch(stabs, left0, right0, typ) ==>
      var p := LastAtOrBelow(stabs, left0, right0, typ, addr0);
      var q := FirstAbove(stabs, left0, right0, typ, addr0);
      && right == q - 1
      && left == if p >= left0 then p else if q > left0 then left0 else left0 - 1
  {
    NarrowedFirst(stabs, left0, right0, typ, addr0);
    hide Narrowed, Ascending, Clear, LastAtOrBelow, FirstAbove;
    left, right := left0, right0;
    var addr := addr0;
    var l, r, any := left, right, false;
    ghost var good := Ascending(stabs, left0, right0, typ) && Clear(stabs, left0, right0, typ, addr0);
    while l <= r
      invariant left0 <= l && r == right <= right0 && (l <= r + 1 || l == left0)
      invariant left0 <= left <= l && (left <= right0 || left == left0)
      invariant any ==> l <= r + 1 && exists k :: left0 <= k <= right0 && Match(stabs, k, typ)
      invariant !any ==> left == left0 && right == right0 && NoMatch(stabs, left0, l - 1, typ) && addr == addr0
      invariant good ==> Narrowed(stabs, left0, right0, typ, addr0, l, r, left, addr)
      invariant right == right0 || Match(stabs, right + 1, typ)
      invariant good ==> forall k :: r < k <= right0 && Match(stabs, k, typ) ==> stabs[k].value > addr0
      decreases r - l, if l < |stabs| && stabs[l].value == addr then 1 else 0
    {
      var trueM := (l + r) / 2;
      var m := trueM;
      while m >= l && stabs[m].typ != typ
        invariant l - 1 <= m <= trueM
        invariant NoMatch(stabs, m + 1, trueM, typ)
        decreases m
      {
        m := m - 1;
      }
      if m < l {
        if good { SkipHalf(stabs, left0, right0, typ, addr0, l, r, left, addr, trueM); }
        l := trueM + 1;
        continue;
      }
      any := true;
      assert Match(stabs, m, typ);
      if good { Compare(stabs, left0, right0, typ, addr0, l, r, left, addr, trueM, m); }
      if stabs[m].value < addr {
        left := m;
        l := trueM + 1;
      } else if stabs[m].value > addr {
        right := m - 1;
        r := m - 1;
      } else {
        left := m;
        l := m;
        addr := Next(addr);
      }
    }
    if !any {
      right := left - 1;
    } else {
      ghost var found, end := left, l;
      if good { FoundInside(stabs, left0, right0, typ, addr0, l, r, left, addr); }
      l := right;
      while l > left && stabs[l].typ != typ
        invariant l <= right && (l >= left || l == right)
        invariant NoMatch(stabs, l + 1, right, typ)
        decreases l
      {
        l := l - 1;
      }
      left := l;
      if good {
        Bracketed(stabs, left0, right0, typ, addr0, left, right, end, found, addr);
      }
    }
  }

  /** What the loops have found out is what the linear scans find. */
  lemma Bracketed(stabs: seq<Stab>, left0: int, right0: int, typ: int, addr: Addr, left: int, right: int,
                  l: int, found: int, a: Addr)
    requires left0 - 1 <= left <= right <= right0
    requires right == right0 || Match(stabs, right + 1, typ)
    requires Narrowed(stabs, left0, right0, typ, addr, l, right, found, a) && right < l
    requires NoMatch(stabs, left + 1, right, typ)
    requires (left >= left0 && Match(stabs, left, typ)) || left == left0 || left == right == left0 - 1
    ensures var p := LastAtOrBelow(stabs, left0, right0, typ, addr);
      var q := FirstAbove(stabs, left0, right0, typ, addr);
      && right == q - 1
      && left == if p >= left0 then p else if q > left0 then left0 else left0 - 1
  {
    FirstIs(stabs, left0, right0, typ, addr, right + 1);
    if left >= left0 && Match(stabs, left, typ) {
      LastIs(stabs, left0, right0, typ, addr, left);
    } else {
      NoLast(stabs, left0, right0, typ, addr);
    }
  }

  /** For instance: a stab of another type at 0, the only stab of the type above addr. */
  lemma BoundsOfNoStab(stabs: seq<Stab>)
    requires stabs == [Stab(68, 10), Stab(100, 100)]
    ensures Ascending(stabs, 0, 1, 100) && Clear(stabs, 0, 1, 100, 50) && !NoMatch(stabs, 0, 1, 100)
    ensures LastAtOrBelow(stabs, 0, 1, 100, 50) == -1 && FirstAbove(stabs, 0, 1, 100, 50) == 1
  {
    assert Match(stabs, 1, 100);
    NoLast(stabs, 0, 1, 100, 50);
    FirstIs(stabs, 0, 1, 100, 50, 1);
  }
}
