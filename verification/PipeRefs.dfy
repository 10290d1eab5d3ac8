/** Who still has a pipe open: tps/lib/fd.c (dup, fd_close), tps/lib/pipe.c (devpipe_close,
    _pipeisclosed) and tps/lib/pageref.c.

    A pipe is three pages: one for the descriptors of its read end, one for those of its write end, one
    for the data.  Nobody keeps a list of descriptors; a reader decides that no writer is left by
    comparing how often its descriptor page and the data page are mapped.  The mappings change one
    system call at a time, in any interleaving of the environments.  */
module PipeRefs {

  datatype End = R | W

  /** Descriptor number num of environment env. */
  datatype Key = Key(env: nat, num: nat)

  /** The system calls dup and close are made of; the descriptors are those of the procedure. */
  datatype Op = UnmapFd | UnmapData | MapData | MapFd

  /** Where a call of _pipeisclosed for descriptor num is. */
  datatype Check =
    | No
    | Start(num: nat)
    | HaveRuns(num: nat, n: nat)                  // n = thisenv->env_runs
    | HaveFd(num: nat, n: nat, fdRefs: nat)       // pageref(fd)
    | HaveBoth(num: nat, n: nat, ret: bool)       // ret = pageref(fd) == pageref(p)
    | Answer(num: nat, ret: bool)

  /** ops: what is left of a dup of descriptor i to j, or of a close of j. */
  datatype Proc = Proc(ops: seq<Op>, i: nat, j: nat, check: Check, runs: nat)

  /** The mappings of the pipe's pages, and the environments; cur runs on the only CPU, if there is one. */
  datatype State = State(fds: map<Key, End>, datas: set<Key>, procs: map<nat, Proc>, cur: nat)

  datatype Event =
    | Close(e: nat, j: nat)
    | Dup(e: nat, i: nat, j: nat)
    | Do(e: nat, room: bool)          // the next system call; room: it finds memory for a page table
    | Ask(e: nat, num: nat)
    | Look(e: nat)                    // the next load of _pipeisclosed
    | Take(e: nat)                    // _pipeisclosed returns
    | Die(e: nat, dead: nat)          // e, or the kernel on its behalf, destroys an environment
    | Switch(e: nat)                  // env_run

  // ---------------------------------------------------------------------------------------------
  // The steps.

  const CLOSE: seq<Op> := [UnmapFd, UnmapData, UnmapFd]   // devpipe_close, and fd_close once more
  const MAP: seq<Op> := [MapData, MapFd]
  const FAIL: seq<Op> := [UnmapFd, UnmapData]             // err: in dup

  function Ends(s: State, end: End): set<Key> {
    set k | k in s.fds && s.fds[k] == end
  }

  /** pp_ref of the page of one end, and of the data page. */
  function FdRefs(s: State, end: End): nat { |Ends(s, end)| }

  function DataRefs(s: State): nat { |s.datas| }

  predicate Idle(p: Proc) { p.ops == [] && p.check.No? }

  predicate Enabled(s: State, ev: Event) {
    ev.e in s.procs &&
    var p := s.procs[ev.e];
    match ev
    case Close(e, j) => Idle(p)
    case Dup(e, i, j) => Idle(p) && Key(e, i) in s.fds       // fd_lookup
    case Do(_, _) => p.ops != []
    case Ask(e, num) => Idle(p) && Key(e, num) in s.fds
    case Look(e) =>
      || p.check.Start? || p.check.HaveBoth?
      || ((p.check.HaveRuns? || p.check.HaveFd?) && Key(e, p.check.num) in s.fds)
    case Take(_) => p.check.Answer?
    case Die(e, dead) => dead in s.procs && (dead == e || Idle(p))
    case Switch(_) => true
  }

  /** With one CPU, only the current environment takes steps. */
  predicate OneCpu(s: State, ev: Event) {
    ev.Switch? || ev.e == s.cur
  }

  function SetProc(s: State, e: nat, p: Proc): State {
    State(s.fds, s.datas, s.procs[e := p], s.cur)
  }

  /** One system call of dup or close. */
  function DoOp(s: State, e: nat, room: bool): State
    requires e in s.procs && s.procs[e].ops != []
  {
    var p := s.procs[e];
    var i, j := Key(e, p.i), Key(e, p.j);
    var rest := s.procs[e := p.(ops := p.ops[1..])];
    var fail := s.procs[e := p.(ops := FAIL)];
    match p.ops[0]
    case UnmapFd => State(s.fds - {j}, s.datas, rest, s.cur)
    case UnmapData => State(s.fds, s.datas - {j}, rest, s.cur)
    case MapData =>
      if i !in s.datas then State(s.fds, s.datas, rest, s.cur)
      else if room then State(s.fds, s.datas + {j}, rest, s.cur)
      else State(s.fds, s.datas, fail, s.cur)
    case MapFd =>
      // an unmapped source has no permissions, which sys_page_map refuses
      if i in s.fds && room then State(s.fds[j := s.fds[i]], s.datas, rest, s.cur)
      else State(s.fds, s.datas, fail, s.cur)
  }

  function LookNext(s: State, e: nat): Check
    requires Enabled(s, Look(e))
  {
    var p := s.procs[e];
    match p.check
    case Start(num) => HaveRuns(num, p.runs)
    case HaveRuns(num, n) => HaveFd(num, n, FdRefs(s, s.fds[Key(e, num)]))
    case HaveFd(num, n, fdRefs) => HaveBoth(num, n, fdRefs == DataRefs(s))
    case HaveBoth(num, n, ret) => if n == p.runs then Answer(num, ret) else Start(num)
    case _ => No
  }

  function Step(s: State, ev: Event): State
    requires Enabled(s, ev)
  {
    var p := s.procs[ev.e];
    match ev
    case Close(e, j) =>
      if Key(e, j) in s.fds then SetProc(s, e, p.(ops := CLOSE, i := j, j := j)) else s
    case Dup(e, i, j) =>
      SetProc(s, e, p.(ops := if Key(e, j) in s.fds then CLOSE + MAP else MAP, i := i, j := j))
    case Do(e, room) => DoOp(s, e, room)
    case Ask(e, num) => SetProc(s, e, p.(check := Start(num)))
    case Look(e) => SetProc(s, e, p.(check := LookNext(s, e)))
    case Take(e) => SetProc(s, e, p.(check := No))
    case Die(_, dead) =>
      State(map k | k in s.fds && k.env != dead :: s.fds[k], (set k | k in s.datas && k.env != dead),
            s.procs - {dead}, s.cur)
    case Switch(e) => State(s.fds, s.datas, s.procs[e := p.(runs := p.runs + 1)], e)
  }

  // ---------------------------------------------------------------------------------------------
  // The invariant: a mapped descriptor has its data mapped.

  predicate Stage(ops: seq<Op>) {
    ops == [] || ops == [MapFd] || ops == MAP || ops == [UnmapFd] + MAP || ops == [UnmapData, UnmapFd] + MAP
    || ops == CLOSE + MAP || ops == [UnmapFd] || ops == [UnmapData, UnmapFd] || ops == CLOSE
    || ops == FAIL || ops == [UnmapData]
  }

  predicate ProcOk(s: State, e: nat)
    requires e in s.procs
  {
    var p := s.procs[e];
    && Stage(p.ops)
    && (p.ops != [] && p.ops[0] == UnmapData ==> Key(e, p.j) !in s.fds)
    && (p.ops == [UnmapFd] + MAP || p.ops == [UnmapFd] || p.ops == MAP ==> Key(e, p.j) !in s.datas)
    && (p.ops == [MapFd] ==> Key(e, p.i) in s.fds ==> Key(e, p.j) in s.datas)
  }

  /** Only its own environment, and only in these places, leaves a descriptor half-way. */
  predicate HalfOk(s: State, k: Key) {
    && k.env in s.procs && s.procs[k.env].j == k.num
    && var ops := s.procs[k.env].ops;
       ops == [MapFd] || ops == FAIL || (ops != [] && ops[0] == UnmapData)
  }

  ghost predicate Inv(s: State) {
    && (forall k :: k in s.fds ==> k in s.datas)
    && (forall k :: k in s.datas && k !in s.fds ==> HalfOk(s, k))
    && (forall e :: e in s.procs ==> ProcOk(s, e))
  }

  lemma DoKeepsInv(s: State, e: nat, room: bool)
    requires Inv(s) && Enabled(s, Do(e, room))
    ensures Inv(DoOp(s, e, room))
  {
    hide Stage;
    assert ProcOk(s, e);
    DoKeepsProc(s, e, room);
    DoKeepsHalf(s, e, room);
    hide Stage;
    var r := DoOp(s, e, room);
    forall x | x in r.procs
      ensures ProcOk(r, x)
    {
      assert x != e ==> ProcOk(s, x);
    }
  }

  lemma DoKeepsHalf(s: State, e: nat, room: bool)
    requires Inv(s) && Enabled(s, Do(e, room))
    ensures var r := DoOp(s, e, room);
      && (forall k :: k in r.fds ==> k in r.datas)
      && (forall k :: k in r.datas && k !in r.fds ==> HalfOk(r, k))
  {
    assert ProcOk(s, e);
    var r := DoOp(s, e, room);
    var j := Key(e, s.procs[e].j);
    forall k | k in r.datas && k !in r.fds
      ensures HalfOk(r, k)
    {
      if k != j {
        assert HalfOk(s, k);
      }
    }
  }

  lemma DoKeepsProc(s: State, e: nat, room: bool)
    requires e in s.procs && ProcOk(s, e) && s.procs[e].ops != []
    requires forall k :: k in s.fds ==> k in s.datas
    ensures ProcOk(DoOp(s, e, room), e)
  {
  }

  /** A change of one environment's procedure that maps and unmaps nothing. */
  lemma SetProcKeepsInv(s: State, e: nat, p: Proc, cur: nat)
    requires Inv(s) && e in s.procs
    requires ProcOk(State(s.fds, s.datas, s.procs[e := p], cur), e)
    requires s.procs[e].ops == [] || (p.ops == s.procs[e].ops && p.i == s.procs[e].i && p.j == s.procs[e].j)
    ensures Inv(State(s.fds, s.datas, s.procs[e := p], cur))
  {
    var r := State(s.fds, s.datas, s.procs[e := p], cur);
    forall x | x in r.procs
      ensures ProcOk(r, x)
    {
      assert x != e ==> ProcOk(s, x);
    }
    forall k | k in r.datas && k !in r.fds
      ensures HalfOk(r, k)
    {
      assert HalfOk(s, k);
    }
  }

  lemma DieKeepsInv(s: State, e: nat, dead: nat)
    requires Inv(s) && Enabled(s, Die(e, dead))
    ensures Inv(Step(s, Die(e, dead)))
  {
    hide Stage;
    var r := Step(s, Die(e, dead));
    assert forall x :: x in r.procs ==> ProcOk(s, x);
    assert forall k :: k in r.datas && k !in r.fds ==> HalfOk(s, k);
  }

  lemma StepKeepsInv(s: State, ev: Event)
    requires Inv(s) && Enabled(s, ev)
    ensures Inv(Step(s, ev))
  {
    var p := s.procs[ev.e];
    assert ProcOk(s, ev.e);
    match ev
    case Do(e, room) => DoKeepsInv(s, e, room);
    case Die(e, dead) => DieKeepsInv(s, e, dead);
    case Close(e, j) =>
      if Key(e, j) in s.fds {
        assert CLOSE[1] == UnmapData && ([UnmapFd] + MAP)[1] == MapData;
        SetProcKeepsInv(s, e, p.(ops := CLOSE, i := j, j := j), s.cur);
      }
    case Dup(e, i, j) =>
      assert Key(e, j) in s.datas && Key(e, j) !in s.fds ==> HalfOk(s, Key(e, j));
      SetProcKeepsInv(s, e, p.(ops := if Key(e, j) in s.fds then CLOSE + MAP else MAP, i := i, j := j), s.cur);
    case _ =>
      SetProcKeepsInv(s, ev.e, Step(s, ev).procs[ev.e], Step(s, ev).cur);
  }

  /** A system call of dup or close changes the one descriptor it is for, the end of an environment takes
      exactly its own, and nothing else changes any. */
  lemma StepTouches(s: State, ev: Event, k: Key)
    requires Enabled(s, ev)
    requires ev.Do? ==> k != Key(ev.e, s.procs[ev.e].j)
    ensures var r := Step(s, ev);
      if ev.Die? && k.env == ev.dead then k !in r.fds && k !in r.datas
      else (k in r.fds <==> k in s.fds) && (k in r.fds ==> r.fds[k] == s.fds[k]) && (k in r.datas <==> k in s.datas)
  {
    if ev.Do? {
      var j := Key(ev.e, s.procs[ev.e].j);
      assert DoOp(s, ev.e, ev.room).fds.Keys - {j} == s.fds.Keys - {j};
    }
  }

  // ---------------------------------------------------------------------------------------------
  // What the counts say.

  /** Descriptors whose data page is mapped and whose own page is not: a dup or close is half-way. */
  function Halfway(s: State): set<Key> {
    s.datas - s.fds.Keys
  }

  lemma CountsAdd(s: State)
    requires Inv(s)
    ensures DataRefs(s) == FdRefs(s, R) + FdRefs(s, W) + |Halfway(s)|
  {
    assert Ends(s, R) !! Ends(s, W);
    assert s.fds.Keys == Ends(s, R) + Ends(s, W);
    assert s.datas == s.fds.Keys + Halfway(s);
  }

  function Other(end: End): End { if end.R? then W else R }

  /** What _pipeisclosed compares is equal exactly when no descriptor of the other end is left and
      none is half-way. */
  lemma ClosedExactly(s: State, end: End)
    requires Inv(s)
    ensures FdRefs(s, end) == DataRefs(s) <==> Ends(s, Other(end)) == {} && Halfway(s) == {}
  {
    CountsAdd(s);
  }

  /** No dup or close is under way. */
  predicate AtRest(s: State) {
    forall e :: e in s.procs ==> s.procs[e].ops == []
  }

  lemma AtRestClosedExactly(s: State, end: End)
    requires Inv(s) && AtRest(s)
    ensures FdRefs(s, end) == DataRefs(s) <==> Ends(s, Other(end)) == {}
  {
    ClosedExactly(s, end);
    if k :| k in Halfway(s) {
      assert HalfOk(s, k);
    }
  }

  // ---------------------------------------------------------------------------------------------
  // Whole runs, and what _pipeisclosed answers.

  /** With one CPU, numbers read since the environment was last scheduled are still right. */
  ghost predicate Fresh(s: State, e: nat)
    requires e in s.procs
  {
    var p := s.procs[e];
    match p.check
    case HaveRuns(_, n) => n <= p.runs
    case HaveFd(num, n, fdRefs) =>
      n <= p.runs && (e == s.cur && n == p.runs ==>
        Key(e, num) in s.fds && fdRefs == FdRefs(s, s.fds[Key(e, num)]))
    case HaveBoth(num, n, ret) =>
      n <= p.runs && (e == s.cur && n == p.runs ==>
        Key(e, num) in s.fds && (ret <==> FdRefs(s, s.fds[Key(e, num)]) == DataRefs(s)))
    case _ => true
  }

  /** An environment that asks does nothing else. */
  ghost predicate InvOne(s: State) {
    && Inv(s)
    && (forall e :: e in s.procs ==> Fresh(s, e) && (s.procs[e].ops == [] || s.procs[e].check.No?))
  }

  lemma StepKeepsInvOne(s: State, ev: Event)
    requires InvOne(s) && Enabled(s, ev) && OneCpu(s, ev)
    ensures InvOne(Step(s, ev))
  {
    hide Inv;
    StepKeepsInv(s, ev);
    assert Fresh(s, ev.e);
    var r := Step(s, ev);
    forall e | e in r.procs
      ensures Fresh(r, e) && (r.procs[e].ops == [] || r.procs[e].check.No?)
    {
      assert Fresh(s, e);
    }
  }

  predicate Runs(s: State, evs: seq<Event>)
    decreases |evs|
  {
    evs == [] || (Enabled(s, evs[0]) && Runs(Step(s, evs[0]), evs[1..]))
  }

  predicate OneCpuRuns(s: State, evs: seq<Event>)
    requires Runs(s, evs)
    decreases |evs|
  {
    evs == [] || (OneCpu(s, evs[0]) && OneCpuRuns(Step(s, evs[0]), evs[1..]))
  }

  function Run(s: State, evs: seq<Event>): State
    requires Runs(s, evs)
    decreases |evs|
  {
    if evs == [] then s else Run(Step(s, evs[0]), evs[1..])
  }

  /** Some environments share the pipe and none of them is in a call. */
  ghost predicate Boot(s: State) {
    && s.fds.Keys == s.datas
    && (forall k :: k in s.fds ==> k.env in s.procs)
    && (forall e :: e in s.procs ==> Idle(s.procs[e]))
  }

  lemma {:induction false} RunKeepsInv(s: State, evs: seq<Event>)
    requires Inv(s) && Runs(s, evs)
    ensures Inv(Run(s, evs))
    decreases |evs|
  {
    if evs == [] {
    } else {
      StepKeepsInv(s, evs[0]);
      RunKeepsInv(Step(s, evs[0]), evs[1..]);
    }
  }

  /** In every run, on any number of CPUs, the data page is referenced at least as often as the two
      descriptor pages together; a comparison made at one moment never finds the pipe closed while the
      other end is open, and with no call under way it finds it closed exactly when it is. */
  lemma CountsInEveryRun(s: State, evs: seq<Event>, end: End)
    requires Boot(s) && Runs(s, evs)
    ensures var r := Run(s, evs);
      && DataRefs(r) >= FdRefs(r, R) + FdRefs(r, W)
      && (FdRefs(r, end) == DataRefs(r) ==> Ends(r, Other(end)) == {})
      && (AtRest(r) ==> (FdRefs(r, end) == DataRefs(r) <==> Ends(r, Other(end)) == {}))
  {
    RunKeepsInv(s, evs);
    var r := Run(s, evs);
    CountsAdd(r);
    ClosedExactly(r, end);
    if AtRest(r) {
      AtRestClosedExactly(r, end);
    }
  }

  lemma {:induction false} RunKeepsInvOne(s: State, evs: seq<Event>)
    requires InvOne(s) && Runs(s, evs) && OneCpuRuns(s, evs)
    ensures InvOne(Run(s, evs))
    decreases |evs|
  {
    if evs == [] {
    } else {
      StepKeepsInvOne(s, evs[0]);
      RunKeepsInvOne(Step(s, evs[0]), evs[1..]);
    }
  }

  /** On one CPU, when _pipeisclosed has checked that it was not interrupted, its answer is the truth
      at that moment: it says closed exactly when no descriptor of the other end is left and none is
      half-way. */
  lemma AnswerRightOnOneCpu(s: State, evs: seq<Event>, e: nat)
    requires Boot(s) && Runs(s, evs) && OneCpuRuns(s, evs)
    requires var r := Run(s, evs);
      Enabled(r, Look(e)) && OneCpu(r, Look(e)) && Step(r, Look(e)).procs[e].check.Answer?
    ensures var r := Step(Run(s, evs), Look(e));
      var k := Key(e, r.procs[e].check.num);
      && k in r.fds
      && (r.procs[e].check.ret <==> Ends(r, Other(r.fds[k])) == {} && Halfway(r) == {})
  {
    RunKeepsInvOne(s, evs);
    var r := Run(s, evs);
    assert Fresh(r, e);
    ClosedExactly(r, r.fds[Key(e, r.procs[e].check.num)]);
    var t := Step(r, Look(e));
    assert t.fds == r.fds && t.datas == r.datas;
  }

  /** On two CPUs it can be wrong: environment 0 reads, 1 writes, 2 holds a second descriptor of the
      read end and closes it between the two loads of 0, whose env_runs does not change. */
  lemma AnswerWrongOnTwoCpus()
    ensures var s := Shared();
      var evs := [Ask(0, 0), Look(0), Look(0), Close(2, 0), Do(2, true), Do(2, true), Look(0), Look(0)];
      && Boot(s) && Runs(s, evs)
      && Run(s, evs).procs[0].check == Answer(0, true)
      && Ends(Run(s, evs), W) == {Key(1, 0)}
  {
    var p := Proc([], 0, 0, No, 1);
    var a, b, c := Key(0, 0), Key(1, 0), Key(2, 0);
    var s := Shared();
    var q := p.(check := HaveFd(0, 1, 2));
    assert Ends(s, R) == {a, c};
    var s3 := State(s.fds, s.datas, s.procs[0 := q], s.cur);
    var s6 := State(s.fds - {c}, s.datas - {c}, s3.procs[2 := p.(ops := [UnmapFd])], s.cur);
    assert s6.datas == {a, b};
    hide Shared, Runs, Run;
    SecondHalf(s6, p, a, b);
    CloseRuns(s3, p, c, [Look(0), Look(0)]);
    FirstHalf(s, s3, p, [Close(2, 0), Do(2, true), Do(2, true)] + [Look(0), Look(0)]);
    hide Step, Enabled;
    Sequence();
  }

  lemma Sequence()
    ensures [Ask(0, 0), Look(0), Look(0)] + ([Close(2, 0), Do(2, true), Do(2, true)] + [Look(0), Look(0)])
         == [Ask(0, 0), Look(0), Look(0), Close(2, 0), Do(2, true), Do(2, true), Look(0), Look(0)]
  {
  }

  function Shared(): (s: State)
    ensures Ends(s, R) == {Key(0, 0), Key(2, 0)} && Ends(s, W) == {Key(1, 0)}
    ensures Boot(s)
  {
    var p := Proc([], 0, 0, No, 1);
    State(map[Key(0, 0) := R, Key(1, 0) := W, Key(2, 0) := R], {Key(0, 0), Key(1, 0), Key(2, 0)},
          map[0 := p, 1 := p, 2 := p], 0)
  }

  lemma FirstHalf(s: State, s3: State, p: Proc, evs: seq<Event>)
    requires p == Proc([], 0, 0, No, 1) && 0 in s.procs && s.procs[0] == p
    requires Key(0, 0) in s.fds && s.fds[Key(0, 0)] == R
    requires s3 == State(s.fds, s.datas, s.procs[0 := p.(check := HaveFd(0, 1, FdRefs(s, R)))], s.cur)
    requires Runs(s3, evs)
    ensures var all := [Ask(0, 0), Look(0), Look(0)] + evs;
      Runs(s, all) && Run(s, all) == Run(s3, evs)
  {
    var s1 := Step(s, Ask(0, 0));
    var s2 := Step(s1, Look(0));
    assert Ends(s2, R) == Ends(s, R);
    assert Step(s2, Look(0)) == s3;
    RunOne(s2, Look(0), evs);
    RunOne(s1, Look(0), [Look(0)] + evs);
    RunOne(s, Ask(0, 0), [Look(0)] + ([Look(0)] + evs));
    assert [Ask(0, 0)] + ([Look(0)] + ([Look(0)] + evs)) == [Ask(0, 0), Look(0), Look(0)] + evs;
  }

  lemma CloseRuns(s: State, p: Proc, c: Key, evs: seq<Event>)
    requires p == Proc([], 0, 0, No, 1) && c == Key(2, 0) && 2 in s.procs && s.procs[2] == p && c in s.fds
    requires Runs(State(s.fds - {c}, s.datas - {c}, s.procs[2 := p.(ops := [UnmapFd])], s.cur), evs)
    ensures var all := [Close(2, 0), Do(2, true), Do(2, true)] + evs;
      && Runs(s, all)
      && Run(s, all) == Run(State(s.fds - {c}, s.datas - {c}, s.procs[2 := p.(ops := [UnmapFd])], s.cur), evs)
  {
    var s1 := Step(s, Close(2, 0));
    assert CLOSE[1..] == [UnmapData, UnmapFd] && [UnmapData, UnmapFd][1..] == [UnmapFd];
    var s2 := Step(s1, Do(2, true));
    assert Step(s2, Do(2, true)) == State(s.fds - {c}, s.datas - {c}, s.procs[2 := p.(ops := [UnmapFd])], s.cur);
    RunOne(s2, Do(2, true), evs);
    RunOne(s1, Do(2, true), [Do(2, true)] + evs);
    RunOne(s, Close(2, 0), [Do(2, true)] + ([Do(2, true)] + evs));
    assert [Close(2, 0)] + ([Do(2, true)] + ([Do(2, true)] + evs)) == [Close(2, 0), Do(2, true), Do(2, true)] + evs;
  }

  lemma SecondHalf(s6: State, p: Proc, a: Key, b: Key)
    requires p == Proc([], 0, 0, No, 1) && a == Key(0, 0) && b != a
    requires s6.datas == {a, b} && a in s6.fds
    requires 0 in s6.procs && s6.procs[0] == p.(check := HaveFd(0, 1, 2))
    ensures Runs(s6, [Look(0), Look(0)])
    ensures Run(s6, [Look(0), Look(0)]) == State(s6.fds, s6.datas, s6.procs[0 := p.(check := Answer(0, true))], s6.cur)
  {
    RunOne(Step(s6, Look(0)), Look(0), []);
    RunOne(s6, Look(0), [Look(0)]);
    assert [Look(0)] + [Look(0)] == [Look(0), Look(0)];
  }

  lemma RunOne(s: State, ev: Event, evs: seq<Event>)
    requires Enabled(s, ev) && Runs(Step(s, ev), evs)
    ensures Runs(s, [ev] + evs) && Run(s, [ev] + evs) == Run(Step(s, ev), evs)
  {
    assert ([ev] + evs)[1..] == evs;
  }

  // ---------------------------------------------------------------------------------------------
  // A close or dup during which no other environment takes a step.

  /** The system calls environment e still has to make; dataRoom and fdRoom: whether the mapping of a data
      page and of a descriptor page finds memory. */
  ghost function Alone(s: State, e: nat, dataRoom: bool, fdRoom: bool): State
    requires e in s.procs
    decreases MapData in s.procs[e].ops || MapFd in s.procs[e].ops, |s.procs[e].ops|
  {
    var ops := s.procs[e].ops;
    if ops == [] then s
    else Alone(DoOp(s, e, if ops[0].MapData? then dataRoom else fdRoom), e, dataRoom, fdRoom)
  }

  lemma {:induction false} AloneIsRun(s: State, e: nat, dataRoom: bool, fdRoom: bool) returns (evs: seq<Event>)
    requires e in s.procs
    ensures forall ev :: ev in evs ==> ev.Do? && ev.e == e
    ensures Runs(s, evs) && Run(s, evs) == Alone(s, e, dataRoom, fdRoom)
    decreases MapData in s.procs[e].ops || MapFd in s.procs[e].ops, |s.procs[e].ops|
  {
    var ops := s.procs[e].ops;
    if ops == [] {
      evs := [];
    } else {
      var room := if ops[0].MapData? then dataRoom else fdRoom;
      var rest := AloneIsRun(DoOp(s, e, room), e, dataRoom, fdRoom);
      RunOne(s, Do(e, room), rest);
      evs := [Do(e, room)] + rest;
    }
  }

  /** Descriptor k and its data page are gone, nothing else. */
  function Without(s: State, e: nat, j: nat, p: Proc): State {
    State(s.fds - {Key(e, j)}, s.datas - {Key(e, j)}, s.procs[e := p], s.cur)
  }

  lemma FailAlone(s: State, e: nat, dataRoom: bool, fdRoom: bool)
    requires e in s.procs && s.procs[e].ops == FAIL
    ensures Alone(s, e, dataRoom, fdRoom) == Without(s, e, s.procs[e].j, s.procs[e].(ops := []))
  {
    var t := DoOp(s, e, fdRoom);
    assert t.procs[e].ops == [UnmapData];
    assert Alone(t, e, dataRoom, fdRoom) == Alone(DoOp(t, e, fdRoom), e, dataRoom, fdRoom);
  }

  lemma CloseAlone(s: State, e: nat, rest: seq<Op>, dataRoom: bool, fdRoom: bool)
    requires e in s.procs && s.procs[e].ops == CLOSE + rest
    ensures Alone(s, e, dataRoom, fdRoom)
         == Alone(Without(s, e, s.procs[e].j, s.procs[e].(ops := rest)), e, dataRoom, fdRoom)
  {
    var t := DoOp(s, e, fdRoom);
    assert t.procs[e].ops == [UnmapData, UnmapFd] + rest;
    var u := DoOp(t, e, fdRoom);
    assert u.procs[e].ops == [UnmapFd] + rest;
    assert DoOp(u, e, fdRoom) == Without(s, e, s.procs[e].j, s.procs[e].(ops := rest));
    hide DoOp;
    assert Alone(u, e, dataRoom, fdRoom) == Alone(DoOp(u, e, fdRoom), e, dataRoom, fdRoom);
    assert Alone(t, e, dataRoom, fdRoom) == Alone(u, e, dataRoom, fdRoom);
  }

  /** A close that nobody disturbs removes exactly this descriptor and its data page. */
  lemma CloseDone(s: State, e: nat, j: nat, dataRoom: bool, fdRoom: bool)
    requires Inv(s) && Enabled(s, Close(e, j))
    ensures var r := Alone(Step(s, Close(e, j)), e, dataRoom, fdRoom);
      r.fds == s.fds - {Key(e, j)} && r.datas == s.datas - {Key(e, j)}
  {
    var t := Step(s, Close(e, j));
    if Key(e, j) in s.fds {
      assert CLOSE + [] == CLOSE;
      CloseAlone(t, e, [], dataRoom, fdRoom);
    } else {
      assert Key(e, j) in s.datas ==> HalfOk(s, Key(e, j));
    }
  }

  lemma MapAlone(s: State, e: nat, dataRoom: bool, fdRoom: bool)
    requires e in s.procs && s.procs[e].ops == MAP
    requires Key(e, s.procs[e].i) in s.fds <==> Key(e, s.procs[e].i) in s.datas
    requires Key(e, s.procs[e].j) !in s.datas && Key(e, s.procs[e].j) !in s.fds
    ensures var r := Alone(s, e, dataRoom, fdRoom);
      var i, j := Key(e, s.procs[e].i), Key(e, s.procs[e].j);
      if i in s.fds && dataRoom && fdRoom then
        r.fds == s.fds[j := s.fds[i]] && r.datas == s.datas + {j}
      else r.fds == s.fds && r.datas == s.datas
  {
    var i, j := Key(e, s.procs[e].i), Key(e, s.procs[e].j);
    var t := DoOp(s, e, dataRoom);
    assert Alone(s, e, dataRoom, fdRoom) == Alone(t, e, dataRoom, fdRoom);
    if i in s.datas && !dataRoom {
      FailAlone(t, e, dataRoom, fdRoom);
    } else {
      var u := DoOp(t, e, fdRoom);
      assert Alone(t, e, dataRoom, fdRoom) == Alone(u, e, dataRoom, fdRoom);
      if i in s.fds && fdRoom {
        assert u.procs[e].ops == [];
      } else {
        FailAlone(u, e, dataRoom, fdRoom);
      }
    }
  }

  /** A dup that nobody disturbs makes j a descriptor of the same end as i, whatever j was before, if there
      is memory and they differ; otherwise j is closed.  No other descriptor changes. */
  lemma DupDone(s: State, e: nat, i: nat, j: nat, dataRoom: bool, fdRoom: bool)
    requires Inv(s) && Enabled(s, Dup(e, i, j))
    ensures var r := Alone(Step(s, Dup(e, i, j)), e, dataRoom, fdRoom);
      if i != j && dataRoom && fdRoom then
        r.fds == s.fds[Key(e, j) := s.fds[Key(e, i)]] && r.datas == s.datas + {Key(e, j)}
      else r.fds == s.fds - {Key(e, j)} && r.datas == s.datas - {Key(e, j)}
  {
    var t := Step(s, Dup(e, i, j));
    assert Key(e, j) in s.datas && Key(e, j) !in s.fds ==> HalfOk(s, Key(e, j));
    if Key(e, j) in s.fds {
      CloseAlone(t, e, MAP, dataRoom, fdRoom);
      MapAlone(Without(t, e, j, t.procs[e].(ops := MAP)), e, dataRoom, fdRoom);
    } else {
      MapAlone(t, e, dataRoom, fdRoom);
    }
  }

  // ---------------------------------------------------------------------------------------------
  // The code of close and dup, when nobody interferes.

  /** The pipe descriptors of one environment. */
  class Table {
    var fds: map<nat, End>
    var datas: set<nat>

    ghost predicate Valid()
      reads this
    {
      fds.Keys == datas
    }

    /** fd_close of a pipe descriptor: the descriptor page goes first. */
    method FdClose(j: nat)
      requires Valid()
      modifies this
      ensures Valid() && fds == old(fds) - {j}
    {
      if j !in fds {
        return;
      }
      fds := fds - {j};
      datas := datas - {j};
      fds := fds - {j};
    }

    /** dup: the data page goes first.  Either j becomes a copy of i, or j is closed; duplicating a
        descriptor onto itself closes it. */
    method Dup(i: nat, j: nat, dataRoom: bool, fdRoom: bool) returns (ok: bool)
      requires Valid()
      modifies this
      ensures Valid()
      ensures ok <==> i in old(fds) && i != j && dataRoom && fdRoom
      ensures fds == if ok then old(fds)[j := old(fds)[i]] else if i in old(fds) then old(fds) - {j} else old(fds)
    {
      if i !in fds {
        return false;
      }
      FdClose(j);
      ok := true;
      if i in datas {
        if dataRoom {
          datas := datas + {j};
        } else {
          ok := false;
        }
      }
      if ok && i in fds && fdRoom {
        fds := fds[j := fds[i]];
        return true;
      }
      fds := fds - {j};
      datas := datas - {j};
      ok := false;
    }
  }
}
