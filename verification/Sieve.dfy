/** The arithmetic of the prime sieve: what a chain of filters lets through. */
module Sieve {

  predicate Divides(d: int, x: int)
    requires d > 0
  {
    x % d == 0
  }

  predicate IsPrime(p: int) {
    p >= 2 && forall d :: 2 <= d < p ==> !Divides(d, p)
  }

  /** The primes from a up to, and without, n, in ascending order. */
  function Primes(a: int, n: int): seq<int>
    decreases n - a
  {
    if a >= n then [] else (if IsPrime(a) then [a] else []) + Primes(a + 1, n)
  }

  /** The numbers of s that d does not divide, in order. */
  function Filter(s: seq<int>, d: int): (r: seq<int>)
    requires d > 0
    ensures |r| <= |s|
  {
    if s == [] then [] else
      Filter(s[..|s| - 1], d) + if s[|s| - 1] % d != 0 then [s[|s| - 1]] else []
  }

  /** The first numbers that a chain of filters prints, given its input. */
  function Sifted(s: seq<int>): seq<int>
    requires forall x :: x in s ==> x > 0
    decreases |s|
  {
    if s == [] then [] else
      assert s[0] in s && forall x :: x in s[1..] ==> x in s;
      FilterIn(s[1..], s[0]);
      [s[0]] + Sifted(Filter(s[1..], s[0]))
  }

  function Range(a: int, n: int): (r: seq<int>)
    ensures |r| == if a < n then n - a else 0
    ensures forall i :: 0 <= i < |r| ==> r[i] == a + i
    decreases n - a
  {
    if a >= n then [] else [a] + Range(a + 1, n)
  }

  lemma {:induction false} FilterIn(s: seq<int>, d: int)
    requires d > 0
    ensures forall x :: x in Filter(s, d) <==> x in s && !Divides(d, x)
  {
    if s == [] {
    } else {
      FilterIn(s[..|s| - 1], d);
      assert s == s[..|s| - 1] + [s[|s| - 1]];
    }
  }

  predicate Ascending(s: seq<int>) {
    forall i, j :: 0 <= i < j < |s| ==> s[i] < s[j]
  }

  lemma {:induction false} FilterAscends(s: seq<int>, d: int)
    requires d > 0 && Ascending(s)
    ensures Ascending(Filter(s, d))
  {
    if s == [] {
    } else {
      var t := s[..|s| - 1];
      FilterAscends(t, d);
      FilterIn(t, d);
      var r := Filter(t, d);
      forall i | 0 <= i < |r|
        ensures r[i] < s[|s| - 1]
      {
        assert r[i] in r && r[i] in t;
        var j :| 0 <= j < |t| && t[j] == r[i];
      }
    }
  }

  /** x has no divisor from 2 up to a. */
  predicate Rough(x: int, a: int) {
    forall d :: 2 <= d < a ==> !Divides(d, x)
  }

  /** s is the ascending list of the numbers from a up to n without a divisor below a. */
  ghost predicate IsRough(s: seq<int>, a: int, n: int) {
    a >= 2 && Ascending(s) && forall x :: x in s <==> a <= x < n && Rough(x, a)
  }

  lemma DividesOn(e: int, d: int, x: int)
    requires e > 0 && d > 0 && Divides(e, d) && Divides(d, x)
    ensures Divides(e, x)
  {
    var k, l := x / d, d / e;
    assert x == d * k && d == e * l;
    assert x == e * (l * k);
    Multiple(e, l * k);
  }

  lemma {:induction false} TimesAtLeast(e: int, m: int)
    requires e > 0 && m >= 1
    ensures e * m >= e
    decreases m
  {
    if m > 1 {
      TimesAtLeast(e, m - 1);
      assert e * m == e * (m - 1) + e;
    }
  }

  lemma Multiple(e: int, k: int)
    requires e > 0
    ensures (e * k) % e == 0
  {
    var x := e * k;
    var q, r := x / e, x % e;
    assert x == e * q + r;
    assert r == e * (k - q);
    if k - q >= 1 {
      TimesAtLeast(e, k - q);
    } else if k - q <= -1 {
      TimesAtLeast(e, q - k);
    }
  }

  /** The head of the list is its least number, so whatever lies below has a divisor below a. */
  lemma NotRoughBefore(s: seq<int>, a: int, n: int, d: int)
    requires IsRough(s, a, n) && s != [] && a <= d < s[0]
    ensures exists e :: 2 <= e < a && Divides(e, d)
  {
    assert s[0] in s;
    assert forall j :: 0 <= j < |s| ==> s[j] != d;
    assert d !in s;
    assert !Rough(d, a);
  }

  /** A number without a divisor below a has none up to the head either, but possibly the head. */
  lemma RoughUpToHead(s: seq<int>, a: int, n: int, x: int)
    requires IsRough(s, a, n) && s != [] && Rough(x, a)
    ensures Rough(x, s[0])
  {
    forall d | 2 <= d < s[0]
      ensures !Divides(d, x)
    {
      if d >= a && Divides(d, x) {
        NotRoughBefore(s, a, n, d);
        var e :| 2 <= e < a && Divides(e, d);
        DividesOn(e, d, x);
      }
    }
  }

  lemma HeadIsPrime(s: seq<int>, a: int, n: int)
    requires IsRough(s, a, n) && s != []
    ensures IsPrime(s[0])
    ensures forall p :: a <= p < s[0] ==> !IsPrime(p)
  {
    assert s[0] in s;
    RoughUpToHead(s, a, n, s[0]);
    forall p | a <= p < s[0]
      ensures !IsPrime(p)
    {
      NotRoughBefore(s, a, n, p);
    }
  }

  /** What one filter passes on is the list for the next. */
  lemma FilterIsRough(s: seq<int>, a: int, n: int)
    requires IsRough(s, a, n) && s != []
    ensures s[0] >= 2 && IsRough(Filter(s[1..], s[0]), s[0] + 1, n)
  {
    var h := s[0];
    assert h in s;
    var r := Filter(s[1..], h);
    FilterIn(s[1..], h);
    FilterAscends(s[1..], h);
    forall x
      ensures x in r <==> h + 1 <= x < n && Rough(x, h + 1)
    {
      if x in r {
        assert x in s[1..] && x in s;
        var j :| 0 <= j < |s[1..]| && s[1..][j] == x;
        assert s[j + 1] == x;
        RoughUpToHead(s, a, n, x);
      }
      if h + 1 <= x < n && Rough(x, h + 1) {
        assert Rough(x, a) && x in s && !Divides(h, x);
        var j :| 0 <= j < |s| && s[j] == x;
        assert s[1..][j - 1] == x;
      }
    }
  }

  lemma {:induction false} PrimesSkip(a: int, b: int, n: int)
    requires a <= b <= n && forall p :: a <= p < b ==> !IsPrime(p)
    ensures Primes(a, n) == Primes(b, n)
    decreases b - a
  {
    if a < b {
      PrimesSkip(a + 1, b, n);
    }
  }

  /** The chain prints the primes. */
  lemma {:induction false} SiftedIsPrimes(s: seq<int>, a: int, n: int)
    requires IsRough(s, a, n)
    ensures forall x :: x in s ==> x > 0
    ensures Sifted(s) == Primes(a, n)
    decreases |s|
  {
    if s == [] {
      forall p | a <= p < n
        ensures !IsPrime(p)
      {
        assert p !in s;
      }
      if a < n {
        PrimesSkip(a, n, n);
      }
    } else {
      var h := s[0];
      assert h in s;
      HeadIsPrime(s, a, n);
      FilterIsRough(s, a, n);
      SiftedIsPrimes(Filter(s[1..], h), h + 1, n);
      PrimesSkip(a, h, n);
    }
  }

  lemma RangeIsRough(n: int)
    ensures IsRough(Range(2, n), 2, n)
  {
    var s := Range(2, n);
    forall x
      ensures x in s <==> 2 <= x < n && Rough(x, 2)
    {
      if 2 <= x < n {
        assert s[x - 2] == x;
      }
    }
  }
}
