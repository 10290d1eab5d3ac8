/** The pipeline of fork/primes.c: a chain of processes, each filtering what the one before sends.

    Process 0 is the one that runs main; process k + 1 is the child that process k forks, and reads
    pipe k, which process k writes.  Pipes and forks do not fail.  A step is one read, write, print,
    fork, pair of closes, or wait; the processes interleave freely. */
module Chain {

  import opened Sieve

  datatype Pc =
    | Gen(i: int)          // primes: the loop that writes 2, 3, ...
    | First                // filter: the first read
    | Got(x: int)          // ... has returned x
    | Printed(x: int)      // x is printed, the fork comes next
    | Loop                 // filter: the read of the loop
    | Put(y: int)          // ... and the write of a number it lets through
    | Closing              // the two closes after the loop
    | Waiting              // wait(NULL)
    | Second(j: nat)       // a second filter call, on pipe j, of the frames that the child inherited
    | Rogue                // ... that finds a number to filter
    | Exited

  /** ins, outs: the pipes whose read and write ends the process has open.  input: all it will ever
      be sent; taken: how much of it is read.  What a process does depends on neither. */
  datatype Proc = Proc(pc: Pc, prime: int, ins: set<nat>, outs: set<nat>, input: seq<int>, taken: nat)

  /** pipes[j]: what is in pipe j. */
  datatype State = State(n: int, cap: nat, procs: seq<Proc>, pipes: seq<seq<int>>, printed: seq<int>)

  predicate HasWriter(s: State, j: nat) {
    exists p :: 0 <= p < |s.procs| && j in s.procs[p].outs
  }

  /** read of pipe j by a process that has it open: there is something, or nobody can write any more. */
  predicate CanRead(s: State, j: nat) {
    j < |s.pipes| && (s.pipes[j] != [] || !HasWriter(s, j))
  }

  predicate CanWrite(s: State, j: nat) {
    j < |s.pipes| && |s.pipes[j]| < s.cap
  }

  predicate Enabled(s: State, p: nat) {
    p < |s.procs| &&
    match s.procs[p].pc
    case Gen(i) => p == 0 && (i < s.n ==> CanWrite(s, 0))
    case First => p > 0 && CanRead(s, p - 1)
    case Got(_) => true
    case Printed(_) => p > 0
    case Loop => p > 0 && CanRead(s, p - 1) && s.procs[p].prime > 0
    case Put(_) => CanWrite(s, p)
    case Closing => true
    case Waiting => p + 1 < |s.procs| && s.procs[p + 1].pc.Exited?
    case Second(j) => j in s.procs[p].ins ==> CanRead(s, j)
    case Rogue => false
    case Exited => false
  }

  function SetProc(s: State, p: nat, q: Proc): State
    requires p < |s.procs|
  {
    s.(procs := s.procs[p := q])
  }

  function SetPipe(s: State, j: nat, c: seq<int>): State
    requires j < |s.pipes|
  {
    s.(pipes := s.pipes[j := c])
  }

  /** Where process p goes when the filter call of its frame for pipe j returns. */
  function AfterFrame(j: nat): Pc {
    if j >= 1 then Second(j) else Exited
  }

  function Step(s: State, p: nat): State
    requires Enabled(s, p)
  {
    var q := s.procs[p];
    match q.pc
    case Gen(i) =>
      if i < s.n then SetProc(SetPipe(s, 0, s.pipes[0] + [i]), p, q.(pc := Gen(i + 1)))
      else SetProc(s, p, q.(pc := Waiting, outs := q.outs - {0}))
    case First =>
      if s.pipes[p - 1] != [] then
        SetProc(SetPipe(s, p - 1, s.pipes[p - 1][1..]), p, q.(pc := Got(s.pipes[p - 1][0]), taken := q.taken + 1))
      else SetProc(s, p, q.(pc := AfterFrame(p - 1), ins := q.ins - {p - 1}))
    case Got(x) => SetProc(s, p, q.(pc := Printed(x))).(printed := s.printed + [x])
    case Printed(x) => Fork(s, p)
    case Loop =>
      if s.pipes[p - 1] != [] then
        var y := s.pipes[p - 1][0];
        SetProc(SetPipe(s, p - 1, s.pipes[p - 1][1..]), p,
                q.(pc := if y % q.prime != 0 then Put(y) else Loop, taken := q.taken + 1))
      else SetProc(s, p, q.(pc := Closing))
    case Put(y) => SetProc(SetPipe(s, p, s.pipes[p] + [y]), p, q.(pc := Loop))
    case Closing => SetProc(s, p, q.(pc := Waiting, ins := q.ins - {p}, outs := q.outs - {p}))
    case Waiting => SetProc(s, p, q.(pc := if p == 0 then Exited else AfterFrame(p - 1)))
    case Second(j) =>
      if j in q.ins && s.pipes[j] != [] then SetProc(s, p, q.(pc := Rogue))
      else SetProc(s, p, q.(pc := if j == 0 then Exited else AfterFrame(j - 1), ins := q.ins - {j}))
    case _ => s
  }

  /** pipe and fork: parent and child share the open pipes, and the child closes two of them. */
  function Fork(s: State, p: nat): State
    requires p < |s.procs| && s.procs[p].pc.Printed? && p > 0
  {
    var q := s.procs[p];
    var x := q.pc.x;
    var child := Proc(First, 0, q.ins + {p} - {p - 1}, q.outs, ChildInput(q), 0);
    var parent := q.(pc := Loop, prime := x, ins := q.ins + {p}, outs := q.outs + {p});
    s.(procs := s.procs[p := parent] + [child], pipes := s.pipes + [[]])
  }

  /** What a filter sends on: the rest of its input, less the multiples of its first number. */
  function ChildInput(q: Proc): seq<int> {
    if q.input == [] || q.input[0] <= 0 then [] else Filter(q.input[1..], q.input[0])
  }

  // ---------------------------------------------------------------------------------------------
  // The invariant.

  predicate Sending(q: Proc) { q.pc.Gen? || q.pc.Loop? || q.pc.Put? || q.pc.Closing? }

  predicate Positive(t: seq<int>) { forall x :: x in t ==> x > 0 }

  /** How much of what process p + 1 will ever be sent, process p has sent. */
  function Sent(s: State, p: nat): int
    requires p + 1 < |s.procs| == |s.pipes| + 1
  {
    s.procs[p + 1].taken + |s.pipes[p]|
  }

  /** What q has let through, of the numbers it has read. */
  function Passed(q: Proc): seq<int> {
    if 1 <= q.taken <= |q.input| && q.prime > 0 then Filter(q.input[1..q.taken], q.prime) else []
  }

  /** The descriptors of process p. */
  predicate Files(q: Proc, p: nat, last: bool) {
    && q.outs == (if Sending(q) then {p} else {})
    && (p > 0 && !last && Sending(q) ==> q.ins == {p - 1, p})
    && (p > 0 && (q.pc.First? || q.pc.Got? || q.pc.Printed?) ==> q.ins == {p - 1})
    && (p > 0 && q.pc.Waiting? ==> q.ins == {p - 1})
    && (q.pc.Second? ==> q.ins <= {p - 1} && 1 <= q.pc.j <= p - 1 && (q.pc.j < p - 1 ==> q.ins == {}))
    && !q.pc.Rogue?
  }

  /** Process p and its pipe to process p + 1. */
  ghost predicate Link(s: State, p: nat)
    requires p + 1 < |s.procs| == |s.pipes| + 1
  {
    var q, c := s.procs[p], s.procs[p + 1];
    var sent := Sent(s, p);
    && |s.pipes[p]| <= s.cap && sent <= |c.input| && s.pipes[p] == c.input[c.taken..sent]
    && c.input == (if p == 0 then Range(2, s.n) else ChildInput(q))
    && (p == 0 ==> q.pc.Gen? || q.pc.Waiting? || q.pc.Exited?)
    && (p > 0 ==> q.input != [] && q.prime == q.input[0] && 1 <= q.taken)
    && (p > 0 ==> q.pc.Loop? || q.pc.Put? || q.pc.Closing? || q.pc.Waiting? || q.pc.Second? || q.pc.Exited?)
    && (!q.pc.Gen? && !q.pc.Loop? && !q.pc.Put? ==> sent == |c.input|)
    && (q.pc.Gen? ==> 2 <= q.pc.i && (s.n >= 2 ==> q.pc.i <= s.n) && sent == q.pc.i - 2)
    && (q.pc.Loop? ==> c.input[..sent] == Passed(q))
    && (q.pc.Put? ==> c.input[..sent] + [q.pc.y] == Passed(q))
    && (p > 0 && !q.pc.Loop? && !q.pc.Put? ==> q.taken == |q.input|)
    && (q.pc.Second? || q.pc.Exited? ==> c.pc.Exited?)
    && (c.pc.Closing? || c.pc.Waiting? || c.pc.Second? || c.pc.Exited? ==> !Sending(q))
  }

  ghost predicate Linked(s: State, p: nat) {
    |s.procs| == |s.pipes| + 1 && (p + 1 < |s.procs| ==> Link(s, p))
  }

  /** Process p alone. */
  ghost predicate ProcOk(s: State, p: nat)
    requires p < |s.procs|
  {
    var q := s.procs[p];
    && Files(q, p, p == |s.procs| - 1) && q.taken <= |q.input| && Positive(q.input)
    && (p > 0 ==> !q.pc.Gen? && exists a :: IsRough(q.input, a, s.n))
    && (q.pc.First? ==> q.taken == 0)
    && (q.pc.Got? ==> q.taken == 1 && q.pc.x == q.input[0])
    && (q.pc.Printed? ==> q.taken == 1 && q.pc.x == q.input[0])
    && (p > 0 && (q.pc.Second? || q.pc.Exited? || q.pc.Waiting?) ==> q.taken == |q.input|)
  }

  /** The last process is still to find out whether there is a number for it. */
  predicate LastOk(q: Proc) {
    q.pc.First? || q.pc.Got? || q.pc.Printed? || ((q.pc.Second? || q.pc.Exited?) && q.input == [])
  }

  /** What is printed, and what the processes from the last on will print, are the primes. */
  ghost predicate PrintedOk(s: State)
    requires |s.procs| > 0
  {
    var q := s.procs[|s.procs| - 1];
    && Positive(q.input)
    && (q.pc.Printed? ==> Sifted(q.input) != [])
    && s.printed + (if q.pc.Printed? then Sifted(q.input)[1..] else Sifted(q.input)) == Primes(2, s.n)
  }

  ghost predicate Inv(s: State) {
    && s.cap > 0 && |s.procs| >= 2 && |s.pipes| == |s.procs| - 1
    && (forall p: nat :: p < |s.procs| ==> ProcOk(s, p))
    && (forall p: nat :: Linked(s, p))
    && LastOk(s.procs[|s.procs| - 1])
    && PrintedOk(s)
  }

  /** Process p and its pipes changed, and nothing else. */
  predicate OnlyAt(s: State, r: State, p: nat) {
    && r.n == s.n && r.cap == s.cap && |r.procs| == |s.procs| && |r.pipes| == |s.pipes|
    && (forall x: nat :: x < |s.procs| && x != p ==> r.procs[x] == s.procs[x])
    && (forall x: nat :: x < |s.pipes| && x != p && x + 1 != p ==> r.pipes[x] == s.pipes[x])
  }

  lemma LinkFrame(s: State, r: State, x: nat)
    requires Linked(s, x) && |r.procs| == |r.pipes| + 1 == |s.procs| && r.n == s.n && r.cap == s.cap
    requires x + 1 < |s.procs| ==>
      r.procs[x] == s.procs[x] && r.procs[x + 1] == s.procs[x + 1] && r.pipes[x] == s.pipes[x]
    ensures Linked(r, x)
  {
  }

  /** What the invariant says about process p and its neighbours. */
  lemma Around(s: State, p: nat)
    requires Inv(s) && p < |s.procs|
    ensures |s.pipes| == |s.procs| - 1 && |s.procs| >= 2 && s.cap > 0
    ensures ProcOk(s, p) && Linked(s, p) && (p > 0 ==> Linked(s, p - 1) && ProcOk(s, p - 1))
    ensures LastOk(s.procs[|s.procs| - 1]) && PrintedOk(s)
  {
  }

  lemma ProcsStay(s: State, r: State, p: nat)
    requires Inv(s) && p < |s.procs| && OnlyAt(s, r, p) && ProcOk(r, p)
    ensures forall x: nat :: x < |r.procs| ==> ProcOk(r, x)
  {
    hide Files, PrintedOk, LastOk, Link;
    forall x: nat | x < |r.procs|
      ensures ProcOk(r, x)
    {
      assert x != p ==> ProcOk(s, x);
    }
  }

  lemma LinksStay(s: State, r: State, p: nat)
    requires Inv(s) && p < |s.procs| && OnlyAt(s, r, p) && Linked(r, p) && (p > 0 ==> Linked(r, p - 1))
    ensures forall x: nat :: Linked(r, x)
  {
    hide Link, ProcOk, PrintedOk, LastOk;
    forall x: nat
      ensures Linked(r, x)
    {
      if x != p && x + 1 != p {
        LinkFrame(s, r, x);
      }
    }
  }

  /** The rest of the chain need not be looked at again. */
  lemma Locally(s: State, r: State, p: nat)
    requires Inv(s) && p < |s.procs| && OnlyAt(s, r, p)
    requires ProcOk(r, p) && Linked(r, p) && (p > 0 ==> Linked(r, p - 1))
    requires LastOk(r.procs[|r.procs| - 1]) && PrintedOk(r)
    ensures Inv(r)
  {
    ProcsStay(s, r, p);
    LinksStay(s, r, p);
    Around(s, p);
    Whole(r);
  }

  lemma Whole(r: State)
    requires r.cap > 0 && |r.procs| >= 2 && |r.pipes| == |r.procs| - 1
    requires (forall x: nat :: x < |r.procs| ==> ProcOk(r, x)) && forall x: nat :: Linked(r, x)
    requires LastOk(r.procs[|r.procs| - 1]) && PrintedOk(r)
    ensures Inv(r)
  {
    hide ProcOk, Linked, PrintedOk, LastOk;
  }

  /** Only process j ever has the write end of pipe j, and an empty pipe without it is finished. */
  lemma AtEof(s: State, p: nat)
    requires 0 < p < |s.procs| && Linked(s, p - 1) && ProcOk(s, p - 1) && s.pipes[p - 1] == [] && !HasWriter(s, p - 1)
    ensures s.procs[p].taken == |s.procs[p].input| && !Sending(s.procs[p - 1])
  {
    assert p - 1 !in s.procs[p - 1].outs;
  }

  lemma GenLocal(s: State)
    requires 1 < |s.procs| && Linked(s, 0) && ProcOk(s, 0) && Enabled(s, 0) && s.procs[0].pc.Gen?
    ensures var r := Step(s, 0); ProcOk(r, 0) && Linked(r, 0)
  {
    hide Filter, Positive, HasWriter;
  }

  lemma GenKeepsInv(s: State)
    requires Inv(s) && Enabled(s, 0) && s.procs[0].pc.Gen?
    ensures Inv(Step(s, 0))
  {
    Around(s, 0);
    GenLocal(s);
    hide Inv;
    StepDone(s, 0);
  }

  /** Steps but printing and forking. */
  predicate Plain(pc: Pc) { !pc.Got? && !pc.Printed? }

  lemma StepLocal(s: State, p: nat)
    requires Enabled(s, p) && Plain(s.procs[p].pc) && |s.pipes| == |s.procs| - 1 && PrintedOk(s)
    ensures OnlyAt(s, Step(s, p), p) && PrintedOk(Step(s, p))
    ensures p < |s.procs| - 1 ==> Step(s, p).procs[|s.procs| - 1] == s.procs[|s.procs| - 1]
  {
    var r := Step(s, p);
    var last := |s.procs| - 1;
    assert r.procs[last].input == s.procs[last].input;
    assert r.procs[last].pc.Printed? <==> s.procs[last].pc.Printed?;
    hide Sifted, Filter, Positive;
  }

  /** The pieces of the proof for one step. */
  lemma StepDone(s: State, p: nat)
    requires Inv(s) && Enabled(s, p) && Plain(s.procs[p].pc)
    requires var r := Step(s, p);
      && ProcOk(r, p) && Linked(r, p) && (p > 0 ==> Linked(r, p - 1)) && (p == |s.procs| - 1 ==> LastOk(r.procs[p]))
    ensures Inv(Step(s, p))
  {
    hide Linked;
    Around(s, p);
    StepLocal(s, p);
    hide Step, Inv, ProcOk, Linked, LastOk, PrintedOk;
    Locally(s, Step(s, p), p);
  }

  /** The first number of a pipe that is not empty. */
  lemma Head(s: State, p: nat)
    requires 0 < p < |s.procs| && Linked(s, p - 1) && s.pipes[p - 1] != []
    ensures var q, c := s.procs[p], s.pipes[p - 1];
      && q.taken < |q.input| && c[0] == q.input[q.taken]
      && c[1..] == q.input[q.taken + 1..q.taken + 1 + |c[1..]|]
  {
  }

  /** Reading a number from the pipe keeps the link to the writer. */
  lemma ReadLinked(s: State, r: State, p: nat)
    requires 0 < p < |s.procs| && Linked(s, p - 1) && s.pipes[p - 1] != [] && OnlyAt(s, r, p)
    requires r.pipes[p - 1] == s.pipes[p - 1][1..] && !s.procs[p].pc.Exited?
    requires r.procs[p].input == s.procs[p].input && r.procs[p].taken == s.procs[p].taken + 1
    requires r.procs[p].pc.Got? || r.procs[p].pc.Loop? || r.procs[p].pc.Put?
    ensures Linked(r, p - 1)
  {
    Head(s, p);
    assert Sent(r, p - 1) == Sent(s, p - 1);
  }

  lemma FirstKeepsInv(s: State, p: nat)
    requires Inv(s) && Enabled(s, p) && s.procs[p].pc.First?
    ensures Inv(Step(s, p))
  {
    Around(s, p);
    assert p == |s.procs| - 1;
    if s.pipes[p - 1] != [] {
      FirstReads(s, p);
    } else {
      FirstEnds(s, p);
    }
    hide Inv;
    StepDone(s, p);
  }

  lemma FirstReads(s: State, p: nat)
    requires Enabled(s, p) && s.procs[p].pc.First? && s.pipes[p - 1] != []
    requires p + 1 == |s.procs| && Linked(s, p - 1) && ProcOk(s, p)
    ensures var r := Step(s, p); ProcOk(r, p) && Linked(r, p) && Linked(r, p - 1) && LastOk(r.procs[p])
  {
    Head(s, p);
    ReadLinked(s, Step(s, p), p);
    hide HasWriter, Positive, Link;
  }

  lemma FirstEnds(s: State, p: nat)
    requires Enabled(s, p) && s.procs[p].pc.First? && s.pipes[p - 1] == []
    requires p + 1 == |s.procs| && Linked(s, p - 1) && ProcOk(s, p) && ProcOk(s, p - 1)
    ensures var r := Step(s, p); ProcOk(r, p) && Linked(r, p) && Linked(r, p - 1) && LastOk(r.procs[p])
  {
    AtEof(s, p);
    hide HasWriter, Positive;
  }

  lemma GotLocal(s: State, p: nat)
    requires Enabled(s, p) && s.procs[p].pc.Got? && 0 < p == |s.procs| - 1 && Linked(s, p - 1) && ProcOk(s, p)
    ensures var r := Step(s, p);
      OnlyAt(s, r, p) && ProcOk(r, p) && Linked(r, p) && Linked(r, p - 1) && LastOk(r.procs[p])
  {
    hide PrintedOk, ChildInput, Positive, IsRough;
    assert Linked(Step(s, p), p - 1);
  }

  /** What is printed moves from what the chain is still to print to what it has printed. */
  lemma GotPrinted(s: State, p: nat)
    requires p == |s.procs| - 1 && s.procs[p].pc.Got? && PrintedOk(s)
    requires s.procs[p].input != [] && s.procs[p].pc.x == s.procs[p].input[0]
    ensures PrintedOk(Step(s, p))
  {
    var q := s.procs[p];
    assert Sifted(q.input) == [q.pc.x] + Sifted(q.input)[1..];
    hide Sifted, Positive;
    assert s.printed + Sifted(q.input) == s.printed + [q.pc.x] + Sifted(q.input)[1..];
  }

  lemma GotIsLast(s: State, p: nat)
    requires p < |s.procs| && s.procs[p].pc.Got? && Linked(s, p) && ProcOk(s, p)
    requires |s.pipes| == |s.procs| - 1 && |s.procs| >= 2
    ensures 0 < p == |s.procs| - 1 && s.procs[p].input != [] && s.procs[p].pc.x == s.procs[p].input[0]
  {
  }

  lemma GotKeepsInv(s: State, p: nat)
    requires Inv(s) && Enabled(s, p) && s.procs[p].pc.Got?
    ensures Inv(Step(s, p))
  {
    hide Inv, Step, ProcOk, Linked, LastOk, PrintedOk, OnlyAt;
    Around(s, p);
    GotIsLast(s, p);
    GotLocal(s, p);
    GotPrinted(s, p);
    OnlyAtSizes(s, Step(s, p), p);
    Locally(s, Step(s, p), p);
  }

  lemma OnlyAtSizes(s: State, r: State, p: nat)
    requires OnlyAt(s, r, p)
    ensures |r.procs| == |s.procs| && |r.pipes| == |s.pipes|
  {
  }

  lemma PrintedKeepsInv(s: State, p: nat)
    requires Inv(s) && Enabled(s, p) && s.procs[p].pc.Printed?
    ensures Inv(Step(s, p))
  {
    Around(s, p);
    assert p == |s.procs| - 1;
    ForkedOk(s, p);
    Before(s, p);
    hide Inv, ProcOk, Linked, LastOk, PrintedOk;
    Assembled(Fork(s, p), p);
  }

  lemma Assembled(r: State, p: nat)
    requires r.cap > 0 && p > 0 && |r.procs| == p + 2 && |r.pipes| == p + 1
    requires forall x: nat :: x < p ==> ProcOk(r, x)
    requires ProcOk(r, p) && ProcOk(r, p + 1)
    requires (forall x: nat :: x + 1 < p ==> Linked(r, x)) && Linked(r, p - 1) && Linked(r, p)
    requires forall x: nat :: x > p ==> Linked(r, x)
    requires LastOk(r.procs[p + 1]) && PrintedOk(r)
    ensures Inv(r)
  {
    hide ProcOk, Linked, LastOk, PrintedOk;
    forall x: nat
      ensures Linked(r, x)
    {
      assert x + 1 < p || x == p - 1 || x == p || x > p;
    }
  }

  lemma Before(s: State, p: nat)
    requires Inv(s) && 0 < p == |s.procs| - 1 && s.procs[p].pc.Printed?
    ensures var r := Fork(s, p);
      && (forall x: nat :: x < p ==> ProcOk(r, x)) && (forall x: nat :: x + 1 < p ==> Linked(r, x))
      && (forall x: nat :: x > p ==> Linked(r, x))
  {
    var r := Fork(s, p);
    hide Files, PrintedOk, LastOk;
    forall x: nat | x < p
      ensures ProcOk(r, x)
    {
      assert ProcOk(s, x);
    }
    hide ProcOk;
    forall x: nat | x + 1 < p
      ensures Linked(r, x)
    {
      assert Linked(s, x);
    }
  }

  /** The new child, the parent, and their pipe. */
  lemma ForkedOk(s: State, p: nat)
    requires 0 < p < |s.procs| && p == |s.procs| - 1 && Linked(s, p - 1) && ProcOk(s, p) && PrintedOk(s) && s.cap > 0
    requires s.procs[p].pc.Printed? && |s.pipes| == |s.procs| - 1
    ensures var r := Fork(s, p);
      |r.pipes| == |r.procs| - 1 && ProcOk(r, p) && ProcOk(r, p + 1) && Linked(r, p) && Linked(r, p - 1)
      && LastOk(r.procs[p + 1]) && PrintedOk(r)
  {
    ChildRough(s.procs[p], s.n);
    ForkPrinted(s, p);
    ForkProcs(s, p);
    ForkLinks(s, p);
  }

  lemma ChildRough(q: Proc, n: int)
    requires (exists a :: IsRough(q.input, a, n)) && q.input != [] && Positive(q.input)
    ensures (exists a :: IsRough(ChildInput(q), a, n)) && Positive(ChildInput(q)) && q.input[0] > 0
    ensures Sifted(q.input)[1..] == Sifted(ChildInput(q))
  {
    var a :| IsRough(q.input, a, n);
    FilterIsRough(q.input, a, n);
    assert q.input[0] in q.input;
    FilterIn(q.input[1..], q.input[0]);
    assert forall x :: x in ChildInput(q) ==> x in q.input[1..] && x in q.input;
  }

  lemma ForkPrinted(s: State, p: nat)
    requires 0 < p == |s.procs| - 1 && s.procs[p].pc.Printed? && PrintedOk(s)
    requires Positive(ChildInput(s.procs[p])) && Sifted(s.procs[p].input)[1..] == Sifted(ChildInput(s.procs[p]))
    ensures PrintedOk(Fork(s, p)) && LastOk(Fork(s, p).procs[p + 1])
  {
    hide Sifted, Filter, Positive;
  }

  lemma ForkProcs(s: State, p: nat)
    requires 0 < p == |s.procs| - 1 && s.procs[p].pc.Printed? && ProcOk(s, p)
    requires (exists a :: IsRough(ChildInput(s.procs[p]), a, s.n)) && Positive(ChildInput(s.procs[p]))
    requires s.procs[p].input[0] > 0
    ensures ProcOk(Fork(s, p), p) && ProcOk(Fork(s, p), p + 1)
  {
    hide IsRough, Filter, Positive, ChildInput;
    assert Fork(s, p).procs[p + 1].ins == {p};
  }

  lemma ForkLinks(s: State, p: nat)
    requires 0 < p == |s.procs| - 1 == |s.pipes| && s.procs[p].pc.Printed? && s.cap > 0
    requires Linked(s, p - 1) && ProcOk(s, p)
    requires s.procs[p].input[0] > 0
    ensures Linked(Fork(s, p), p) && Linked(Fork(s, p), p - 1)
  {
    var q := s.procs[p];
    assert Filter(q.input[1..1], q.input[0]) == [];
    hide IsRough, Filter, Positive;
    var r := Fork(s, p);
    assert Passed(r.procs[p]) == [] && Sent(r, p) == 0;
    assert Linked(r, p);
    assert Sent(r, p - 1) == Sent(s, p - 1);
  }

  lemma LoopKeepsInv(s: State, p: nat)
    requires Inv(s) && Enabled(s, p) && s.procs[p].pc.Loop?
    ensures Inv(Step(s, p))
  {
    Around(s, p);
    hide Inv, Positive, IsRough, PrintedOk;
    assert p < |s.procs| - 1;
    if s.pipes[p - 1] != [] {
      LoopReads(s, p);
    } else {
      LoopEnds(s, p);
    }
    StepDone(s, p);
  }

  lemma LoopReads(s: State, p: nat)
    requires Enabled(s, p) && s.procs[p].pc.Loop? && s.pipes[p - 1] != []
    requires p + 1 < |s.procs| && Linked(s, p - 1) && Linked(s, p) && ProcOk(s, p)
    ensures var r := Step(s, p); ProcOk(r, p) && Linked(r, p) && Linked(r, p - 1)
  {
    LoopEffect(s, p);
    hide Step, Link, OnlyAt, ProcOk, Enabled;
    ReadLinked(s, Step(s, p), p);
    LoopLinked(s, p);
  }

  /** What the read does, but for the number that may be written next. */
  lemma LoopEffect(s: State, p: nat)
    requires Enabled(s, p) && s.procs[p].pc.Loop? && s.pipes[p - 1] != []
    requires p + 1 < |s.procs| && Linked(s, p - 1) && ProcOk(s, p)
    ensures |s.pipes| == |s.procs| - 1
    ensures var r := Step(s, p);
      && OnlyAt(s, r, p) && ProcOk(r, p) && r.pipes[p - 1] == s.pipes[p - 1][1..]
      && r.procs[p].input == s.procs[p].input && r.procs[p].taken == s.procs[p].taken + 1
      && (r.procs[p].pc.Loop? || r.procs[p].pc.Put?)
  {
    Head(s, p);
    hide Filter, HasWriter, Positive, Link, IsRough;
  }

  /** What was let through grows by the number read, if it is let through. */
  lemma PassedNext(q: Proc, q': Proc)
    requires 1 <= q.taken < |q.input| && q.prime > 0
    requires q'.input == q.input && q'.prime == q.prime && q'.taken == q.taken + 1
    ensures Passed(q') == Passed(q) + if q.input[q.taken] % q.prime != 0 then [q.input[q.taken]] else []
  {
    FilterNext(q.input, q.taken, q.prime);
  }

  lemma LoopLinked(s: State, p: nat)
    requires Enabled(s, p) && s.procs[p].pc.Loop? && s.pipes[p - 1] != []
    requires p + 1 < |s.procs| && Linked(s, p - 1) && Linked(s, p)
    ensures Linked(Step(s, p), p)
  {
    hide Filter, HasWriter, Positive, Range, Passed, AfterFrame, CanWrite;
    var q := s.procs[p];
    Head(s, p);
    var r := Step(s, p);
    PassedNext(q, r.procs[p]);
    assert r.procs[p + 1] == s.procs[p + 1] && r.pipes[p] == s.pipes[p] && Sent(r, p) == Sent(s, p);
    assert Passed(q) + [] == Passed(q);
  }

  /** Who has read all its input and passed on what is to be passed on has sent all. */
  lemma AllSent(s: State, p: nat)
    requires 0 < p && p + 1 < |s.procs| && Linked(s, p) && s.procs[p].pc.Loop? && s.procs[p].prime > 0
    requires s.procs[p].taken == |s.procs[p].input|
    ensures |s.pipes| == |s.procs| - 1 && Sent(s, p) == |s.procs[p + 1].input|
  {
    hide Filter;
    var q := s.procs[p];
    assert q.input[1..q.taken] == q.input[1..];
    assert Passed(q) == ChildInput(q) == s.procs[p + 1].input;
  }

  lemma LoopEnds(s: State, p: nat)
    requires Enabled(s, p) && s.procs[p].pc.Loop? && s.pipes[p - 1] == []
    requires p + 1 < |s.procs| && Linked(s, p - 1) && Linked(s, p) && ProcOk(s, p) && ProcOk(s, p - 1)
    ensures var r := Step(s, p); ProcOk(r, p) && Linked(r, p) && Linked(r, p - 1)
  {
    hide Filter, HasWriter, Positive, IsRough, Passed, CanWrite;
    AtEof(s, p);
    AllSent(s, p);
  }

  lemma FilterNext(input: seq<int>, taken: nat, d: int)
    requires 1 <= taken < |input| && d > 0
    ensures Filter(input[1..taken + 1], d) ==
              Filter(input[1..taken], d) + if input[taken] % d != 0 then [input[taken]] else []
  {
    assert input[1..taken + 1][..taken - 1] == input[1..taken];
  }

  lemma PutKeepsInv(s: State, p: nat)
    requires Inv(s) && Enabled(s, p) && s.procs[p].pc.Put?
    ensures Inv(Step(s, p))
  {
    Around(s, p);
    hide Inv, Positive, IsRough, PrintedOk;
    assert 0 < p < |s.procs| - 1;
    PutLocal(s, p);
    StepDone(s, p);
  }

  lemma PutLocal(s: State, p: nat)
    requires 0 < p < |s.procs| - 1 && Linked(s, p) && ProcOk(s, p) && Linked(s, p - 1)
    requires Enabled(s, p) && s.procs[p].pc.Put?
    ensures var r := Step(s, p); ProcOk(r, p) && Linked(r, p) && Linked(r, p - 1)
  {
    PutLinked(s, p);
    PutBefore(s, p);
    hide Link, Filter, Positive, HasWriter;
  }

  lemma PutBefore(s: State, p: nat)
    requires 0 < p < |s.procs| - 1 && Linked(s, p - 1) && Enabled(s, p) && s.procs[p].pc.Put?
    ensures Linked(Step(s, p), p - 1)
  {
    hide Filter, Positive, HasWriter, Range;
    var r := Step(s, p);
    assert r.procs[p - 1] == s.procs[p - 1] && r.pipes[p - 1] == s.pipes[p - 1] && Sent(r, p - 1) == Sent(s, p - 1);
  }

  lemma PutLinked(s: State, p: nat)
    requires 0 < p < |s.procs| - 1 && Linked(s, p) && ProcOk(s, p) && Enabled(s, p) && s.procs[p].pc.Put?
    ensures Linked(Step(s, p), p)
  {
    var q := s.procs[p];
    var r := Step(s, p);
    var c, sent := s.procs[p + 1], Sent(s, p);
    FilterShorter(q.input, q.taken, q.prime);
    hide Filter;
    assert Passed(q) <= c.input;
    assert c.input[sent] == q.pc.y;
    assert Sent(r, p) == sent + 1;
    assert c.input[..sent + 1] == c.input[..sent] + [q.pc.y];
  }

  /** What is let through early is a prefix of what is let through in the end. */
  lemma {:induction false} FilterShorter(input: seq<int>, taken: nat, d: int)
    requires 1 <= taken <= |input| && d > 0
    ensures Filter(input[1..taken], d) <= Filter(input[1..], d)
    decreases |input| - taken
  {
    if taken < |input| {
      FilterNext(input, taken, d);
      FilterShorter(input, taken + 1, d);
    } else {
      assert input[1..taken] == input[1..];
    }
  }

  lemma QuietLocal(s: State, p: nat)
    requires p < |s.procs| - 1 && Linked(s, p) && ProcOk(s, p) && (p > 0 ==> Linked(s, p - 1)) && Enabled(s, p)
    requires s.procs[p].pc.Closing? || s.procs[p].pc.Waiting?
    requires s.procs[p].pc.Closing? ==> p > 0
    ensures var r := Step(s, p); ProcOk(r, p) && Linked(r, p) && (p > 0 ==> Linked(r, p - 1))
  {
    hide Filter, Positive, HasWriter, CanRead;
  }

  lemma SecondLocal(s: State, p: nat)
    requires p < |s.procs| && Linked(s, p) && ProcOk(s, p) && (p > 0 ==> Linked(s, p - 1)) && Enabled(s, p)
    requires s.procs[p].pc.Second? && LastOk(s.procs[|s.procs| - 1])
    ensures var r := Step(s, p);
      && ProcOk(r, p) && Linked(r, p) && (p > 0 ==> Linked(r, p - 1))
      && (p == |s.procs| - 1 ==> LastOk(r.procs[p]))
  {
    hide Filter, Positive;
  }

  lemma ClosingKeepsInv(s: State, p: nat)
    requires Inv(s) && Enabled(s, p) && s.procs[p].pc.Closing?
    ensures Inv(Step(s, p))
  {
    Around(s, p);
    hide Inv, Positive, IsRough, PrintedOk;
    assert 0 < p < |s.procs| - 1;
    QuietLocal(s, p);
    StepDone(s, p);
  }

  lemma WaitingKeepsInv(s: State, p: nat)
    requires Inv(s) && Enabled(s, p) && s.procs[p].pc.Waiting?
    ensures Inv(Step(s, p))
  {
    Around(s, p);
    hide Inv, Positive, IsRough, PrintedOk;
    assert p < |s.procs| - 1;
    QuietLocal(s, p);
    StepDone(s, p);
  }

  /** A second call of filter never finds a number. */
  lemma SecondKeepsInv(s: State, p: nat)
    requires Inv(s) && Enabled(s, p) && s.procs[p].pc.Second?
    ensures Inv(Step(s, p))
  {
    Around(s, p);
    SecondLocal(s, p);
    hide Inv;
    StepDone(s, p);
  }

  lemma StepKeepsInv(s: State, p: nat)
    requires Inv(s) && Enabled(s, p)
    ensures Inv(Step(s, p))
  {
    Around(s, p);
    match s.procs[p].pc
    case Gen(_) => GenKeepsInv(s);
    case First => FirstKeepsInv(s, p);
    case Got(_) => GotKeepsInv(s, p);
    case Printed(_) => PrintedKeepsInv(s, p);
    case Loop => LoopKeepsInv(s, p);
    case Put(_) => PutKeepsInv(s, p);
    case Closing => ClosingKeepsInv(s, p);
    case Waiting => WaitingKeepsInv(s, p);
    case Second(_) => SecondKeepsInv(s, p);
    case _ =>
  }

  // ---------------------------------------------------------------------------------------------
  // Whole runs.

  predicate Runs(s: State, ps: seq<nat>)
    decreases |ps|
  {
    ps == [] || (Enabled(s, ps[0]) && Runs(Step(s, ps[0]), ps[1..]))
  }

  function Run(s: State, ps: seq<nat>): State
    requires Runs(s, ps)
    decreases |ps|
  {
    if ps == [] then s else Run(Step(s, ps[0]), ps[1..])
  }

  /** primes(n) after its pipe, its fork and its first closes; main has checked that n is at least 2. */
  function Boot(n: int, cap: nat): State {
    var main := Proc(Gen(2), 0, {}, {0}, [], 0);
    var child := Proc(First, 0, {0}, {}, Range(2, n), 0);
    State(n, cap, [main, child], [[]], [])
  }

  lemma BootInv(n: int, cap: nat)
    requires n >= 2 && cap > 0
    ensures Inv(Boot(n, cap))
  {
    var s := Boot(n, cap);
    RangeIsRough(n);
    SiftedIsPrimes(Range(2, n), 2, n);
    assert ProcOk(s, 0) && ProcOk(s, 1);
    assert Link(s, 0);
    assert s.printed + Sifted(Range(2, n)) == Sifted(Range(2, n));
    forall x: nat
      ensures Linked(s, x)
    {
    }
  }

  lemma {:induction false} RunKeepsInv(s: State, ps: seq<nat>)
    requires Inv(s) && Runs(s, ps)
    ensures Inv(Run(s, ps)) && Run(s, ps).n == s.n
    decreases |ps|
  {
    if ps == [] {
    } else {
      assert Step(s, ps[0]).n == s.n;
      StepKeepsInv(s, ps[0]);
      RunKeepsInv(Step(s, ps[0]), ps[1..]);
    }
  }

  /** In every interleaving what is printed is a prefix of the primes below n in ascending order; when
      every process has ended it is all of them; and no second call of filter ever finds a number. */
  lemma PrintsThePrimes(n: int, cap: nat, ps: seq<nat>)
    requires n >= 2 && cap > 0 && Runs(Boot(n, cap), ps)
    ensures var s := Run(Boot(n, cap), ps);
      && s.printed <= Primes(2, n)
      && ((forall p: nat :: p < |s.procs| ==> s.procs[p].pc.Exited?) ==> s.printed == Primes(2, n))
      && (forall p: nat :: p < |s.procs| ==> !s.procs[p].pc.Rogue?)
  {
    BootInv(n, cap);
    RunKeepsInv(Boot(n, cap), ps);
    var s := Run(Boot(n, cap), ps);
    Around(s, |s.procs| - 1);
    forall p: nat | p < |s.procs|
      ensures !s.procs[p].pc.Rogue?
    {
      assert ProcOk(s, p);
    }
  }

  // ---------------------------------------------------------------------------------------------
  // The chain never gets stuck.

  /** If pipe p is empty and process p could still send, then process p or one before it can move. */
  lemma {:induction false} SomeSenderMoves(s: State, p: nat)
    requires Inv(s) && p + 1 < |s.procs| && s.pipes[p] == [] && Sending(s.procs[p])
    ensures exists x: nat :: x <= p && Enabled(s, x)
    decreases p
  {
    Around(s, p);
    if p > 0 && s.procs[p].pc.Loop? && !Enabled(s, p) {
      assert s.procs[p].input[0] in s.procs[p].input;
      WriterSends(s, p);
      SomeSenderMoves(s, p - 1);
    } else {
      assert Enabled(s, p);
    }
  }

  /** A process that waits for input waits for a process that can still send. */
  lemma WriterSends(s: State, p: nat)
    requires Inv(s) && 0 < p < |s.procs| && !CanRead(s, p - 1)
    ensures s.pipes[p - 1] == [] && Sending(s.procs[p - 1])
  {
    Around(s, p);
    var w :| 0 <= w < |s.procs| && p - 1 in s.procs[w].outs;
    assert ProcOk(s, w);
  }

  /** The last process, unless it waits for its first number, has ended, or is about to. */
  lemma LastMoves(s: State, p: nat)
    requires 0 < p < |s.procs| && LastOk(s.procs[p]) && !s.procs[p].pc.Exited? && !s.procs[p].pc.Second?
    requires s.procs[p].pc.First? ==> CanRead(s, p - 1)
    ensures Enabled(s, p)
  {
    hide CanRead;
  }

  /** As long as some process has not ended, some process can take a step. */
  lemma NeverStuck(s: State)
    requires Inv(s) && exists p: nat :: p < |s.procs| && !s.procs[p].pc.Exited?
    ensures exists x: nat :: Enabled(s, x)
  {
    hide Inv, ProcOk, Linked, PrintedOk, LastOk, Enabled, CanRead;
    var p: nat :| p < |s.procs| && !s.procs[p].pc.Exited?;
    var last := |s.procs| - 1;
    Around(s, last);
    if s.procs[last].pc.Exited? {
      Unwinds(s, p);
    } else if s.procs[last].pc.Second? {
      SecondMoves(s, last);
    } else if s.procs[last].pc.First? && !CanRead(s, last - 1) {
      WriterSends(s, last);
      SomeSenderMoves(s, last - 1);
    } else {
      LastMoves(s, last);
    }
  }

  /** A second call of filter never blocks. */
  lemma SecondMoves(s: State, p: nat)
    requires Inv(s) && p < |s.procs| && s.procs[p].pc.Second?
    ensures Enabled(s, p)
  {
    Around(s, p);
    assert s.procs[p].pc.j in s.procs[p].ins ==> s.procs[p].pc.j == p - 1;
    if !CanRead(s, p - 1) {
      WriterSends(s, p);
    }
  }

  /** Ended processes at the end of the chain let those before them end. */
  lemma {:induction false} Unwinds(s: State, p: nat)
    requires Inv(s) && p < |s.procs| && !s.procs[p].pc.Exited? && s.procs[|s.procs| - 1].pc.Exited?
    ensures exists x: nat :: Enabled(s, x)
    decreases |s.procs| - p
  {
    Around(s, p);
    if !s.procs[p + 1].pc.Exited? {
      Unwinds(s, p + 1);
    } else if s.procs[p].pc.Waiting? {
      assert Enabled(s, p);
    } else {
      assert s.procs[p].pc.Second?;
      SecondMoves(s, p);
    }
  }

  // ---------------------------------------------------------------------------------------------
  // Every run ends.

  /** Steps of a filter loop with r numbers left to read. */
  function LoopWork(r: nat, p: nat): nat { 2 * r + p + 3 }

  /** Steps of process p, from its first read on, and of all the processes it will start. */
  function ChainWork(input: seq<int>, p: nat): (w: nat)
    ensures w >= p + 3
    decreases |input|
  {
    if input == [] || input[0] <= 0 then p + 3
    else 3 + LoopWork(|input| - 1, p) + ChainWork(Filter(input[1..], input[0]), p + 1)
  }

  /** Steps that process p still has before it, and with it the processes it is still to start. */
  function ProcWork(q: Proc, p: nat, n: int): nat {
    match q.pc
    case Gen(i) => (if i < n then n - i else 0) + p + 2
    case First => ChainWork(q.input, p)
    case Got(_) => ChainWork(q.input, p) - 1
    case Printed(_) => ChainWork(q.input, p) - 2
    case Loop => LoopWork(if q.taken < |q.input| then |q.input| - q.taken else 0, p)
    case Put(_) => LoopWork(if q.taken < |q.input| then |q.input| - q.taken else 0, p) + 1
    case Closing => p + 2
    case Waiting => p + 1
    case Second(j) => j + 1
    case Rogue => 0
    case Exited => 0
  }

  function Total(procs: seq<Proc>, n: int): nat {
    if procs == [] then 0
    else Total(procs[..|procs| - 1], n) + ProcWork(procs[|procs| - 1], |procs| - 1, n)
  }

  function Work(s: State): nat { Total(s.procs, s.n) }

  lemma {:induction false} TotalAt(procs: seq<Proc>, p: nat, q: Proc, n: int)
    requires p < |procs|
    ensures Total(procs[p := q], n) == Total(procs, n) - ProcWork(procs[p], p, n) + ProcWork(q, p, n)
    decreases |procs|
  {
    hide ProcWork;
    var last := |procs| - 1;
    var procs' := procs[p := q];
    if p == last {
      assert procs'[..last] == procs[..last];
    } else {
      TotalAt(procs[..last], p, q, n);
      assert procs'[..last] == procs[..last][p := q];
    }
  }

  lemma ForkWorks(s: State, p: nat)
    requires Inv(s) && Enabled(s, p) && s.procs[p].pc.Printed?
    ensures Work(Step(s, p)) < Work(s)
  {
    Around(s, p);
    hide Inv, Linked, PrintedOk;
    var q := s.procs[p];
    var r := Fork(s, p);
    assert q.input[0] in q.input;
    TotalAt(s.procs, p, r.procs[p], s.n);
    assert r.procs == s.procs[p := r.procs[p]] + [r.procs[|s.procs|]];
    assert r.procs[..|s.procs|] == s.procs[p := r.procs[p]];
    assert p + 1 == |s.procs|;
  }

  lemma ReadWorks(s: State, p: nat)
    requires Inv(s) && Enabled(s, p) && p > 0 && s.pipes[p - 1] != [] && (s.procs[p].pc.First? || s.procs[p].pc.Loop?)
    ensures ProcWork(Step(s, p).procs[p], p, s.n) < ProcWork(s.procs[p], p, s.n)
  {
    Around(s, p);
    Head(s, p);
    hide Inv, Linked, PrintedOk, ProcOk, ChainWork;
  }

  /** A process that neither forks nor gets a number. */
  lemma OwnWorks(s: State, p: nat)
    requires Enabled(s, p) && !s.procs[p].pc.Printed?
    requires s.procs[p].pc.First? || s.procs[p].pc.Loop? ==> s.pipes[p - 1] == []
    ensures ProcWork(Step(s, p).procs[p], p, s.n) < ProcWork(s.procs[p], p, s.n)
  {
    hide ChainWork, HasWriter;
  }

  lemma OneWorks(s: State, p: nat)
    requires Enabled(s, p) && !s.procs[p].pc.Printed?
    requires ProcWork(Step(s, p).procs[p], p, s.n) < ProcWork(s.procs[p], p, s.n)
    ensures Work(Step(s, p)) < Work(s)
  {
    hide ProcWork, HasWriter, Total, CanRead, CanWrite;
    var r := Step(s, p);
    assert r.procs == s.procs[p := r.procs[p]];
    TotalAt(s.procs, p, r.procs[p], s.n);
  }

  /** Every step leaves less to do. */
  lemma StepWorks(s: State, p: nat)
    requires Inv(s) && Enabled(s, p)
    ensures Work(Step(s, p)) < Work(s)
  {
    hide Inv, Step, Work, ProcWork;
    if s.procs[p].pc.Printed? {
      ForkWorks(s, p);
    } else {
      if (s.procs[p].pc.First? || s.procs[p].pc.Loop?) && s.pipes[p - 1] != [] {
        ReadWorks(s, p);
      } else {
        OwnWorks(s, p);
      }
      OneWorks(s, p);
    }
  }

  lemma {:induction false} RunWorks(s: State, ps: seq<nat>)
    requires Inv(s) && Runs(s, ps)
    ensures |ps| + Work(Run(s, ps)) <= Work(s)
    decreases |ps|
  {
    if ps == [] {
    } else {
      StepWorks(s, ps[0]);
      StepKeepsInv(s, ps[0]);
      RunWorks(Step(s, ps[0]), ps[1..]);
    }
  }

  /** No run takes more than a fixed number of steps, and one that cannot go on has printed all the
      primes below n and ended every process. */
  lemma EveryRunFinishes(n: int, cap: nat, ps: seq<nat>)
    requires n >= 2 && cap > 0 && Runs(Boot(n, cap), ps)
    ensures |ps| <= Work(Boot(n, cap))
    ensures var s := Run(Boot(n, cap), ps);
      (forall p: nat :: !Enabled(s, p)) ==>
        s.printed == Primes(2, n) && forall p: nat :: p < |s.procs| ==> s.procs[p].pc.Exited?
  {
    var s := Run(Boot(n, cap), ps);
    BootInv(n, cap);
    RunWorks(Boot(n, cap), ps);
    RunKeepsInv(Boot(n, cap), ps);
    PrintsThePrimes(n, cap, ps);
    hide Inv, Boot, Run, Runs, Work, Enabled;
    if p: nat :| p < |s.procs| && !s.procs[p].pc.Exited? {
      NeverStuck(s);
    }
  }
}
