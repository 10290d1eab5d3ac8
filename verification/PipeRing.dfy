/** The bytes of a pipe: devpipe_read and devpipe_write (tps/lib/pipe.c) of one reader and one writer,
    interleaved at every check, every byte and every increment.  */
module PipeRing {

  const PIPEBUFSIZ: nat := 32
  const OFF_MAX: int := 0x7FFF_FFFF    // positions are of the signed 32-bit type off_t

  type Byte = x: int | 0 <= x < 256

  /** devpipe_read(fd, buf, n): got is what the call has put into its buffer. */
  datatype Reader =
    | Out                                              // between calls
    | Check(n: nat, got: seq<Byte>)                    // about to compare the positions
    | AskClosed(n: nat, seen: int)                     // found them equal, at position seen, with nothing got
    | Byte(n: nat, got: seq<Byte>)                     // about to take a byte
    | Inc(n: nat, got: seq<Byte>)                      // about to add 1 to p_rpos
    | Eof                                              // a call has returned 0 for the end of the stream
    | Closed                                           // has closed its descriptor

  /** devpipe_write(fd, data, |data|): i bytes are stored. */
  datatype Writer =
    | Away                                             // between calls
    | Full(data: seq<Byte>, i: nat)                    // about to compare the positions
    | Store(data: seq<Byte>, i: nat)                   // about to store a byte
    | Bump(data: seq<Byte>, i: nat)                    // about to add 1 to p_wpos
    | Gone                                             // has closed its descriptor

  /** put: the bytes whose store was made visible by p_wpos; taken: those whose place was given back by
      p_rpos; out: what the finished read calls returned, in order; all: what write calls were given, less
      what a call gave up on when it was told that the reader is gone. */
  datatype State = State(rpos: int, wpos: int, buf: seq<Byte>, reader: Reader, writer: Writer,
                         put: seq<Byte>, taken: seq<Byte>, out: seq<Byte>, all: seq<Byte>)

  /** closed: what _pipeisclosed answers if it is asked in this step, rightly or not. */
  datatype Event =
    | Read(n: nat)
    | ReadStep(closed: bool)
    | Write(data: seq<Byte>)
    | WriteStep(closed: bool)
    | CloseWrite
    | CloseRead

  predicate Enabled(s: State, ev: Event) {
    && |s.buf| == PIPEBUFSIZ
    && match ev
       case Read(_) => s.reader.Out?
       case ReadStep(_) =>
         && !s.reader.Out? && !s.reader.Eof? && !s.reader.Closed?
         && (s.reader.Byte? ==> 0 <= s.rpos)
       case Write(_) => s.writer.Away?
       case WriteStep(_) =>
         && !s.writer.Away? && !s.writer.Gone?
         && (s.writer.Store? || s.writer.Bump? ==> s.writer.i < |s.writer.data| && 0 <= s.wpos < OFF_MAX)
       case CloseWrite => s.writer.Away?
       case CloseRead => s.reader.Out? || s.reader.Eof?
  }

  function ReadNext(s: State, closed: bool): State
    requires Enabled(s, ReadStep(closed))
  {
    match s.reader
    case Check(n, got) =>
      if |got| >= n then s.(reader := Out, out := s.out + got)
      else if s.rpos != s.wpos then s.(reader := Byte(n, got))
      else if |got| > 0 then s.(reader := Out, out := s.out + got)
      else s.(reader := AskClosed(n, s.wpos))
    // _pipeisclosed, then sys_yield
    case AskClosed(n, _) => s.(reader := if closed then Eof else Check(n, []))
    case Byte(n, got) => s.(reader := Inc(n, got + [s.buf[s.rpos % PIPEBUFSIZ]]))
    case Inc(n, got) =>
      if got == [] then s else
      s.(rpos := s.rpos + 1, reader := Check(n, got), taken := s.taken + [got[|got| - 1]])
    case _ => s
  }

  function WriteNext(s: State, closed: bool): State
    requires Enabled(s, WriteStep(closed))
  {
    match s.writer
    case Full(data, i) =>
      if i >= |data| then s.(writer := Away)
      else if s.wpos >= s.rpos + PIPEBUFSIZ then
        // _pipeisclosed: the call returns 0, whatever it has stored; otherwise yield and look again
        if closed then s.(writer := Away, all := s.put) else s
      else s.(writer := Store(data, i))
    case Store(data, i) => s.(buf := s.buf[s.wpos % PIPEBUFSIZ := data[i]], writer := Bump(data, i))
    case Bump(data, i) => s.(wpos := s.wpos + 1, writer := Full(data, i + 1), put := s.put + [data[i]])
    case _ => s
  }

  function Step(s: State, ev: Event): State
    requires Enabled(s, ev)
  {
    match ev
    case Read(n) => s.(reader := Check(n, []))
    case ReadStep(closed) => ReadNext(s, closed)
    case Write(data) => s.(writer := Full(data, 0), all := s.all + data)
    case WriteStep(closed) => WriteNext(s, closed)
    case CloseWrite => s.(writer := Gone)
    case CloseRead => s.(reader := Closed)
  }

  // ---------------------------------------------------------------------------------------------
  // The invariant.

  /** What the current read call has got. */
  function Got(r: Reader): seq<Byte> {
    if r.Check? || r.Byte? || r.Inc? then r.got else []
  }

  /** What the current write call still has to make visible. */
  function Left(w: Writer): seq<Byte> {
    if (w.Full? || w.Store? || w.Bump?) && w.i <= |w.data| then w.data[w.i..] else []
  }

  predicate ReaderOk(s: State) {
    match s.reader
    case Check(n, got) => |got| <= n
    case AskClosed(n, seen) => n > 0 && seen == s.rpos
    case Byte(n, got) => |got| < n && s.rpos < s.wpos
    case Inc(n, got) =>
      && 0 < |got| <= n
      && 0 <= s.rpos < s.wpos && s.rpos < |s.put| && got[|got| - 1] == s.put[s.rpos]
    case _ => true
  }

  predicate WriterOk(s: State) {
    match s.writer
    case Full(data, i) => i <= |data|
    case Store(data, i) => i < |data| && s.wpos < s.rpos + PIPEBUFSIZ
    case Bump(data, i) =>
      && i < |data| && s.wpos < s.rpos + PIPEBUFSIZ
      && |s.buf| == PIPEBUFSIZ && s.buf[s.wpos % PIPEBUFSIZ] == data[i]
    case _ => true
  }

  ghost predicate Inv(s: State) {
    && |s.buf| == PIPEBUFSIZ
    && 0 <= s.rpos <= s.wpos <= s.rpos + PIPEBUFSIZ
    && |s.put| == s.wpos && |s.taken| == s.rpos && s.taken == s.put[..s.rpos]
    && (forall k :: s.rpos <= k < s.wpos ==> s.buf[k % PIPEBUFSIZ] == s.put[k])
    && ReaderOk(s) && WriterOk(s)
    && s.put + Left(s.writer) == s.all
    && s.out + Got(s.reader) == s.taken + (if s.reader.Inc? then [s.put[s.rpos]] else [])
  }

  lemma ByteKeepsInv(s: State, closed: bool)
    requires Inv(s) && Enabled(s, ReadStep(closed)) && s.reader.Byte?
    ensures Inv(ReadNext(s, closed))
  {
    var got, b := s.reader.got, s.buf[s.rpos % PIPEBUFSIZ];
    assert s.out + (got + [b]) == s.out + got + [b];
  }

  lemma IncKeepsInv(s: State, closed: bool)
    requires Inv(s) && Enabled(s, ReadStep(closed)) && s.reader.Inc?
    ensures Inv(ReadNext(s, closed))
  {
    assert s.put[..s.rpos + 1] == s.put[..s.rpos] + [s.put[s.rpos]];
  }

  lemma ReadKeepsInv(s: State, closed: bool)
    requires Inv(s) && Enabled(s, ReadStep(closed))
    ensures Inv(ReadNext(s, closed))
  {
    hide Left;
    match s.reader
    case Byte(_, _) => ByteKeepsInv(s, closed);
    case Inc(_, _) => IncKeepsInv(s, closed);
    case Check(_, got) => assert s.out + got + [] == s.out + got;
    case _ =>
  }

  lemma StoreKeepsInv(s: State, closed: bool)
    requires Inv(s) && Enabled(s, WriteStep(closed)) && s.writer.Store?
    ensures Inv(WriteNext(s, closed))
  {
    forall k | s.rpos <= k < s.wpos
      ensures k % PIPEBUFSIZ != s.wpos % PIPEBUFSIZ
    {
      DifferentCells(k, s.wpos);
    }
  }

  lemma BumpKeepsInv(s: State, closed: bool)
    requires Inv(s) && Enabled(s, WriteStep(closed)) && s.writer.Bump?
    ensures Inv(WriteNext(s, closed))
  {
    var data, i := s.writer.data, s.writer.i;
    var r := WriteNext(s, closed);
    assert data[i..] == [data[i]] + data[i + 1..];
    assert s.put + ([data[i]] + data[i + 1..]) == r.put + data[i + 1..];
    assert r.put[..s.rpos] == s.put[..s.rpos];
    assert s.reader.Inc? ==> r.put[s.rpos] == s.put[s.rpos];
    forall k | r.rpos <= k < r.wpos
      ensures r.buf[k % PIPEBUFSIZ] == r.put[k]
    {
      assert k < s.wpos ==> r.put[k] == s.put[k];
    }
  }

  lemma WriteKeepsInv(s: State, closed: bool)
    requires Inv(s) && Enabled(s, WriteStep(closed))
    ensures Inv(WriteNext(s, closed))
  {
    match s.writer
    case Store(data, i) => StoreKeepsInv(s, closed);
    case Bump(data, i) => BumpKeepsInv(s, closed);
    case _ =>
  }

  lemma DifferentCells(j: nat, k: nat)
    requires j < k < j + PIPEBUFSIZ
    ensures j % PIPEBUFSIZ != k % PIPEBUFSIZ
  {
  }

  lemma StepKeepsInv(s: State, ev: Event)
    requires Inv(s) && Enabled(s, ev)
    ensures Inv(Step(s, ev))
  {
    match ev
    case ReadStep(closed) => ReadKeepsInv(s, closed);
    case WriteStep(closed) => WriteKeepsInv(s, closed);
    case Write(data) => assert data[0..] == data;
    case _ =>
  }

  // ---------------------------------------------------------------------------------------------
  // Whole runs.

  predicate Runs(s: State, evs: seq<Event>)
    decreases |evs|
  {
    evs == [] || (Enabled(s, evs[0]) && Runs(Step(s, evs[0]), evs[1..]))
  }

  function Run(s: State, evs: seq<Event>): State
    requires Runs(s, evs)
    decreases |evs|
  {
    if evs == [] then s else Run(Step(s, evs[0]), evs[1..])
  }

  /** The pipe as pipe() leaves it; the page was zeroed. */
  predicate Fresh(s: State) {
    && s.rpos == 0 && s.wpos == 0 && |s.buf| == PIPEBUFSIZ && s.reader.Out? && s.writer.Away?
    && s.put == [] && s.taken == [] && s.out == [] && s.all == []
  }

  lemma {:induction false} RunKeepsInv(s: State, evs: seq<Event>)
    requires Inv(s) && Runs(s, evs)
    ensures Inv(Run(s, evs))
    decreases |evs|
  {
    if evs == [] {
    } else {
      StepKeepsInv(s, evs[0]);
      RunKeepsInv(Step(s, evs[0]), evs[1..]);
    }
  }

  /** In every run, with fewer than 2^31 bytes written, whatever _pipeisclosed answers: the positions never
      cross nor drift more than the buffer apart; what the read calls returned, with what the current one
      has got, is a prefix of what was written; and between calls nothing but the bytes still in the pipe is
      missing from it. */
  lemma BytesInOrder(s: State, evs: seq<Event>)
    requires Fresh(s) && Runs(s, evs)
    ensures var r := Run(s, evs);
      && 0 <= r.wpos - r.rpos <= PIPEBUFSIZ
      && r.out + Got(r.reader) <= r.put <= r.all
      && (!r.reader.Inc? ==> |r.out + Got(r.reader)| == r.rpos)
      && |Got(r.reader)| <= Wanted(r.reader)
      && (r.writer.Away? || r.writer.Gone? ==> r.put == r.all)
  {
    RunKeepsInv(s, evs);
    var r := Run(s, evs);
    if r.reader.Inc? {
      assert r.taken + [r.put[r.rpos]] == r.put[..r.rpos + 1];
    }
  }

  /** What the current read call was asked for. */
  function Wanted(r: Reader): nat {
    if r.Check? || r.AskClosed? || r.Byte? || r.Inc? then r.n else 0
  }

  /** A read call of n bytes never has more than n.  It returns exactly when it has n, or some and finds the
      pipe empty, and then with what it has got; it reports the end of the stream exactly when it was asked
      for some, has got none, and is told that the pipe is closed. */
  lemma ReadReturns(s: State, closed: bool)
    requires Inv(s) && Enabled(s, ReadStep(closed))
    ensures var r := ReadNext(s, closed);
      && Inv(r) && |Got(r.reader)| <= Wanted(s.reader)
      && (r.reader.Out? <==>
            s.reader.Check? && (|s.reader.got| == s.reader.n || (s.reader.got != [] && s.rpos == s.wpos)))
      && r.out == (if r.reader.Out? then s.out + Got(s.reader) else s.out)
      && (r.reader.Eof? <==> s.reader.AskClosed? && closed)
      && (s.reader.AskClosed? ==> s.reader.n > 0)
      && (r.reader.AskClosed? <==> s.reader.Check? && s.reader.n > 0 && s.reader.got == [] && s.rpos == s.wpos)
      && (!r.reader.Out? && !r.reader.Eof? ==> Wanted(r.reader) == Wanted(s.reader))
  {
    ReadKeepsInv(s, closed);
  }

  /** A write call returns exactly when all its bytes are stored, or the pipe is full and it is told that
      nobody reads. */
  lemma WriteReturns(s: State, closed: bool)
    requires Inv(s) && Enabled(s, WriteStep(closed))
    ensures var r := WriteNext(s, closed);
      && Inv(r)
      && (r.writer.Away? <==> s.writer.Full? && (Left(s.writer) == [] || (s.wpos == s.rpos + PIPEBUFSIZ && closed)))
      && r.all == (if Left(s.writer) != [] && r.writer.Away? then s.put else s.all)
  {
    WriteKeepsInv(s, closed);
  }

  /** When a read call reports the end of the stream, rightly or not, the bytes still in the pipe are those
      written after the call last found it empty ... */
  lemma EofMisses(s: State)
    requires Inv(s) && s.reader.AskClosed? && Enabled(s, ReadStep(true))
    ensures ReadNext(s, true).reader.Eof? && !ReadNext(s, false).reader.Eof?
    ensures s.put[|s.taken|..] == s.put[s.reader.seen..]
    ensures s.out == s.put <==> s.wpos == s.reader.seen
  {
    assert s.put[..s.rpos] + s.put[s.rpos..] == s.put;
  }

  /** If _pipeisclosed is asked in this step its answer is right. */
  predicate Right(s: State, ev: Event) {
    && (ev.ReadStep? && s.reader.AskClosed? ==> ev.closed == s.writer.Gone?)
    && (ev.WriteStep? && s.writer.Full? ==> ev.closed == s.reader.Closed?)
  }

  /** A run in which every answer is right when it is given. */
  predicate RightAnswers(s: State, evs: seq<Event>)
    requires Runs(s, evs)
    decreases |evs|
  {
    evs == [] || (Right(s, evs[0]) && RightAnswers(Step(s, evs[0]), evs[1..]))
  }

  /** ... and there can be some although every answer is right: the writer's last write and its close may
      fall between the reader's two tests. */
  lemma EofCanMissBytes(s: State)
    requires Fresh(s)
    ensures var w := WriteStep(false);
      var evs := [Read(1), ReadStep(false), Write([7]), w, w, w, w, CloseWrite, ReadStep(true)];
      && Runs(s, evs) && RightAnswers(s, evs)
      && Run(s, evs).reader == Eof && Run(s, evs).put == [7] && Run(s, evs).out == []
  {
    hide WriteNext, Right, Runs;
    var w := WriteStep(false);
    var s1 := s.(reader := AskClosed(1, 0));
    assert Step(Step(s, Read(1)), ReadStep(false)) == s1;
    var s2 := s1.(writer := Bump([7], 0), buf := s1.buf[0 := 7], all := [7]);
    OneByte(s1, s2);
    WriterLeaves(s2);
    hide Runs, Run, RightAnswers;
    var rest := [w, w, CloseWrite, ReadStep(true)];
    RunTwo(Step(s1, Write([7])), w, w, rest);
    RunOne(s1, Write([7]), [w, w] + rest);
    RunTwo(s, Read(1), ReadStep(false), [Write([7])] + ([w, w] + rest));
    assert [Read(1), ReadStep(false)] + ([Write([7])] + ([w, w] + rest))
        == [Read(1), ReadStep(false), Write([7]), w, w, w, w, CloseWrite, ReadStep(true)];
  }

  lemma OneByte(s1: State, s2: State)
    requires |s1.buf| == PIPEBUFSIZ && s1.rpos == 0 == s1.wpos && s1.writer.Away? && s1.all == []
    requires s1.reader == AskClosed(1, 0)
    requires s2 == s1.(writer := Bump([7], 0), buf := s1.buf[0 := 7], all := [7])
    ensures Enabled(s1, Write([7])) && Step(s1, Write([7])).reader == s1.reader
    ensures var t, w := Step(s1, Write([7])), WriteStep(false);
      Enabled(t, w) && Enabled(Step(t, w), w) && Step(Step(t, w), w) == s2
      && Right(t, w) && Right(Step(t, w), w)
  {
    assert s1.all + [7] == [7];
  }

  lemma WriterLeaves(s2: State)
    requires |s2.buf| == PIPEBUFSIZ && s2.rpos == 0 == s2.wpos && s2.writer == Bump([7], 0) && s2.put == []
    requires s2.reader == AskClosed(1, 0)
    ensures var rest := [WriteStep(false), WriteStep(false), CloseWrite, ReadStep(true)];
      Runs(s2, rest) && RightAnswers(s2, rest)
      && Run(s2, rest) == s2.(writer := Gone, wpos := 1, put := [7], reader := Eof)
  {
    var w := WriteStep(false);
    var s3 := s2.(writer := Away, wpos := 1, put := [7]);
    assert s2.put + [7] == [7];
    assert Step(Step(s2, w), w) == s3;
    RunTwo(s3, CloseWrite, ReadStep(true), []);
    RunTwo(s2, w, w, [CloseWrite, ReadStep(true)]);
    assert [w, w] + [CloseWrite, ReadStep(true)] == [w, w, CloseWrite, ReadStep(true)];
    assert [CloseWrite, ReadStep(true)] + [] == [CloseWrite, ReadStep(true)];
  }

  lemma RunOne(s: State, a: Event, evs: seq<Event>)
    requires Enabled(s, a) && Right(s, a) && Runs(Step(s, a), evs) && RightAnswers(Step(s, a), evs)
    ensures Runs(s, [a] + evs) && Run(s, [a] + evs) == Run(Step(s, a), evs) && RightAnswers(s, [a] + evs)
  {
    assert ([a] + evs)[1..] == evs;
  }

  lemma RunTwo(s: State, a: Event, b: Event, evs: seq<Event>)
    requires Enabled(s, a) && Enabled(Step(s, a), b) && Right(s, a) && Right(Step(s, a), b)
    requires Runs(Step(Step(s, a), b), evs) && RightAnswers(Step(Step(s, a), b), evs)
    ensures Runs(s, [a, b] + evs) && Run(s, [a, b] + evs) == Run(Step(Step(s, a), b), evs)
    ensures RightAnswers(s, [a, b] + evs)
  {
    assert ([a, b] + evs)[1..] == [b] + evs && ([b] + evs)[1..] == evs;
    assert Runs(Step(s, a), [b] + evs);
  }

  // ---------------------------------------------------------------------------------------------
  // The code, when nobody interferes; a call that would yield to wait for the other side stops there.

  class Pipe {
    var rpos: int
    var wpos: int
    const buf: array<Byte>
    ghost var put: seq<Byte>

    ghost predicate Valid()
      reads this, buf
    {
      && buf.Length == PIPEBUFSIZ
      && 0 <= rpos <= wpos <= rpos + PIPEBUFSIZ && wpos <= OFF_MAX && |put| == wpos
      && (forall k :: rpos <= k < wpos ==> buf[k % PIPEBUFSIZ] == put[k])
    }

    ghost function Unread(): seq<Byte>
      requires 0 <= rpos <= |put|
      reads this
    {
      put[rpos..]
    }

    method DevpipeRead(vbuf: array<Byte>, n: nat, closed: bool) returns (r: nat, waits: bool)
      requires Valid() && n <= vbuf.Length && vbuf != buf
      modifies this, vbuf
      ensures Valid() && put == old(put) && wpos == old(wpos)
      ensures waits <==> n > 0 && old(Unread()) == [] && !closed
      ensures r == if n <= |old(Unread())| then n else |old(Unread())|
      ensures vbuf[..r] == old(Unread())[..r] && vbuf[r..] == old(vbuf[r..])
      ensures Unread() == old(Unread())[r..]
    {
      var i: nat := 0;
      while i < n
        invariant 0 <= i <= n && rpos == old(rpos) + i && Valid() && put == old(put) && wpos == old(wpos)
        invariant forall k :: 0 <= k < i ==> vbuf[k] == put[old(rpos) + k]
        invariant forall k :: i <= k < vbuf.Length ==> vbuf[k] == old(vbuf[k])
        invariant buf[..] == old(buf[..])
      {
        if rpos == wpos {
          if i > 0 {
            return i, false;
          }
          if closed {
            return 0, false;
          }
          return 0, true;
        }
        vbuf[i] := buf[rpos % PIPEBUFSIZ];
        rpos := rpos + 1;
        i := i + 1;
      }
      return i, false;
    }

    /** A write that finds the pipe full and the readers gone returns 0, although the bytes that fitted
        are in the pipe. */
    method DevpipeWrite(data: seq<Byte>, closed: bool) returns (r: nat, waits: bool)
      requires Valid() && wpos + |data| <= OFF_MAX
      modifies this, buf
      ensures Valid() && rpos == old(rpos)
      ensures var room := PIPEBUFSIZ - |old(Unread())|;
        && put == old(put) + (if |data| <= room then data else data[..room])
        && (waits <==> |data| > room && !closed)
        && r == (if |data| <= room then |data| else 0)
    {
      var i: nat := 0;
      while i < |data|
        invariant 0 <= i <= |data| && wpos == old(wpos) + i && rpos == old(rpos) && Valid()
        invariant put == old(put) + data[..i]
      {
        if wpos >= rpos + PIPEBUFSIZ {
          return 0, !closed;
        }
        forall k | rpos <= k < wpos
          ensures k % PIPEBUFSIZ != wpos % PIPEBUFSIZ
        {
          DifferentCells(k, wpos);
        }
        buf[wpos % PIPEBUFSIZ] := data[i];
        wpos := wpos + 1;
        put := put + [data[i]];
        i := i + 1;
      }
      return i, false;
    }
  }
}
