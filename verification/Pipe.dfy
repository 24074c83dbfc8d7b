/** The pipe of `fs/pipe.c`: one page used as a ring, a reader and a writer that block and wake each other. */
module Pipe {
  import opened Basics

  const PAGE_SIZE := 4096
  const CAPACITY := 4095

  /** The page, PIPE_HEAD (where the next byte is written) and PIPE_TAIL (where the next is read). */
  datatype Ring = Ring(page: seq<int>, head: int, tail: int)

  predicate Valid(r: Ring) {
    |r.page| == PAGE_SIZE && 0 <= r.head < PAGE_SIZE && 0 <= r.tail < PAGE_SIZE
  }

  /** PIPE_SIZE. */
  function Size(r: Ring): (n: int)
    requires Valid(r)
    ensures n == if r.tail <= r.head then r.head - r.tail else r.head - r.tail + PAGE_SIZE
  {
    (r.head - r.tail) % PAGE_SIZE
  }

  /** An index advanced to at most the end of the page. */
  function Wrap(x: int): (y: int)
    requires 0 <= x <= PAGE_SIZE
    ensures y == if x == PAGE_SIZE then 0 else x
  {
    x % PAGE_SIZE
  }

  /** The bytes in the pipe, oldest first. */
  function Contents(r: Ring): (c: seq<int>)
    requires Valid(r)
    ensures |c| == Size(r)
  {
    Span(r.page, r.tail, r.head)
  }

  /** From index t of the ring up to index h. */
  function Span(p: seq<int>, t: nat, h: nat): (c: seq<int>)
    requires t <= |p| && h <= |p|
    ensures |c| == if t <= h then h - t else |p| - t + h
  {
    if t <= h then p[t..h] else p[t..] + p[..h]
  }

  // ---------------------------------------------------------------- one chunk

  function ReadLen(r: Ring, count: nat): (n: nat)
    requires Valid(r)
    ensures n <= count && n <= Size(r) && r.tail + n <= PAGE_SIZE && (count > 0 && Size(r) > 0 ==> n > 0)
  {
    Min(Min(PAGE_SIZE - r.tail, count), Size(r))
  }

  function WriteLen(r: Ring, count: nat): (n: nat)
    requires Valid(r)
    ensures n <= count && n <= CAPACITY - Size(r) && r.head + n <= PAGE_SIZE
              && (count > 0 && Size(r) < CAPACITY ==> n > 0)
  {
    Min(Min(PAGE_SIZE - r.head, count), CAPACITY - Size(r))
  }

  /** The chunk read, and the ring after it. */
  function ReadChunk(r: Ring, count: nat): (x: (Ring, seq<int>))
    requires Valid(r)
    ensures Valid(x.0)
  {
    var n := ReadLen(r, count);
    (r.(tail := Wrap(r.tail + n)), r.page[r.tail..r.tail + n])
  }

  function WriteChunk(r: Ring, bytes: seq<int>): (x: Ring)
    requires Valid(r)
    ensures Valid(x)
  {
    var n := WriteLen(r, |bytes|);
    r.(page := r.page[..r.head] + bytes[..n] + r.page[r.head + n..], head := Wrap(r.head + n))
  }

  /** Reading takes bytes off the front, in order. */
  lemma ReadIsFront(r: Ring, count: nat)
    requires Valid(r)
    ensures Contents(r) == ReadChunk(r, count).1 + Contents(ReadChunk(r, count).0)
    ensures Size(ReadChunk(r, count).0) == Size(r) - ReadLen(r, count)
  {
    hide Size, Wrap, ReadLen, Contents;
    Advance(r, ReadLen(r, count));
  }

  /** The contents split where the tail moves to. */
  lemma Advance(r: Ring, n: nat)
    requires Valid(r) && n <= Size(r) && r.tail + n <= PAGE_SIZE
    ensures Contents(r) == r.page[r.tail..r.tail + n] + Contents(r.(tail := Wrap(r.tail + n)))
    ensures Size(r.(tail := Wrap(r.tail + n))) == Size(r) - n
  {
    hide Size, Wrap, Span;
    SpanFront(r.page, r.tail, r.head, n);
  }

  lemma SpanFront(p: seq<int>, t: nat, h: nat, n: nat)
    requires |p| == PAGE_SIZE && t < PAGE_SIZE && h < PAGE_SIZE && t + n <= PAGE_SIZE && n <= |Span(p, t, h)|
    ensures Span(p, t, h) == p[t..t + n] + Span(p, if t + n == PAGE_SIZE then 0 else t + n, h)
  {
    if t <= h {
      SplitAt(p, t, t + n, h);
    } else if t + n < PAGE_SIZE {
      SpanSplit(p, t, h, n);
    } else {
      assert p[0..h] == p[..h] && p[t..t + n] == p[t..];
    }
  }

  lemma SpanSplit(p: seq<int>, t: nat, h: nat, n: nat)
    requires h < t && t + n <= |p|
    ensures p[t..] + p[..h] == p[t..t + n] + (p[t + n..] + p[..h])
  {
    assert p[t..] == p[t..t + n] + p[t + n..];
  }

  lemma SplitAt(p: seq<int>, a: nat, b: nat, c: nat)
    requires a <= b <= c <= |p|
    ensures p[a..c] == p[a..b] + p[b..c]
  {
  }

  /** Writing puts bytes at the back, in order, and disturbs none of those already there. */
  lemma WriteIsBack(r: Ring, bytes: seq<int>)
    requires Valid(r)
    ensures Contents(WriteChunk(r, bytes)) == Contents(r) + bytes[..WriteLen(r, |bytes|)]
    ensures Size(WriteChunk(r, bytes)) == Size(r) + WriteLen(r, |bytes|)
  {
    hide Size, Wrap, WriteLen, Span;
    var n := WriteLen(r, |bytes|);
    if r.tail <= r.head {
      SpanBack(r.page, WriteChunk(r, bytes).page, r.tail, r.head, bytes[..n]);
    } else {
      SpanGap(r.page, WriteChunk(r, bytes).page, r.tail, r.head, bytes[..n]);
    }
  }

  /** A chunk written at the back of contents that lie in one piece. */
  lemma SpanBack(p: seq<int>, q: seq<int>, t: nat, h: nat, chunk: seq<int>)
    requires t <= h && h + |chunk| <= |p| && q == p[..h] + chunk + p[h + |chunk|..]
    requires t == 0 ==> h + |chunk| < |p|
    ensures Span(q, t, if h + |chunk| == |p| then 0 else h + |chunk|) == Span(p, t, h) + chunk
  {
    assert q[t..h + |chunk|] == p[t..h] + chunk;
    assert h + |chunk| == |p| ==> q[t..] + q[..0] == q[t..h + |chunk|];
  }

  /** A chunk written in the gap between the two pieces. */
  lemma SpanGap(p: seq<int>, q: seq<int>, t: nat, h: nat, chunk: seq<int>)
    requires h + |chunk| < t <= |p| && q == p[..h] + chunk + p[h + |chunk|..]
    ensures Span(q, t, h + |chunk|) == Span(p, t, h) + chunk
  {
    assert q[t..] == p[t..];
    assert q[..h + |chunk|] == p[..h] + chunk;
  }

  // ---------------------------------------------------------------- the code

  class Buffer {
    const page: array<int>
    var head: int
    var tail: int

    ghost function R(): Ring
      reads this, page
    {
      Ring(page[..], head, tail)
    }

    constructor ()
      ensures Valid(R()) && Contents(R()) == []
    {
      page := new int[PAGE_SIZE](_ => 0);
      head, tail := 0, 0;
    }

    function PipeSize(): (n: int)
      requires Valid(R())
      reads this, page
      ensures n == |Contents(R())|
    {
      (head - tail) % PAGE_SIZE
    }

    /** One turn of the outer loop of read_pipe, once the pipe is known not to be empty. */
    method CopyOut(count: nat) returns (out: seq<int>)
      requires Valid(R())
      modifies this`tail
      ensures (R(), out) == ReadChunk(old(R()), count)
    {
      var chars := Min(Min(PAGE_SIZE - tail, count), PipeSize());
      var size := tail;
      tail := Wrap(tail + chars);
      out := [];
      ghost var t0 := size;
      while chars > 0
        invariant 0 <= chars && t0 <= size && size + chars == t0 + ReadLen(old(R()), count)
        invariant out == page[t0..size]
      {
        out := out + [page[size]];
        size, chars := size + 1, chars - 1;
      }
    }

    /** One turn of the outer loop of write_pipe, once the pipe is known not to be full. */
    method CopyIn(bytes: seq<int>) returns (n: nat)
      requires Valid(R())
      modifies this`head, page
      ensures R() == WriteChunk(old(R()), bytes) && n == WriteLen(old(R()), |bytes|)
    {
      hide Size, Wrap, Span, Contents;
      n := Min(Min(PAGE_SIZE - head, |bytes|), CAPACITY - PipeSize());
      var size := head;
      head := Wrap(head + n);
      Store(size, bytes[..n]);
    }

    /** The innermost loop of write_pipe. */
    method Store(at: nat, bytes: seq<int>)
      requires at + |bytes| <= page.Length
      modifies page
      ensures page[..] == old(page[..])[..at] + bytes + old(page[..])[at + |bytes|..]
    {
      var chars, size, buf := |bytes|, at, 0;
      while chars > 0
        invariant 0 <= chars && buf + chars == |bytes| && size == at + buf
        invariant forall i :: 0 <= i < page.Length ==>
                    page[i] == if at <= i < at + buf then bytes[i - at] else old(page[i])
      {
        page[size] := bytes[buf];
        size, buf, chars := size + 1, buf + 1, chars - 1;
      }
    }

    /** read_pipe up to the point where it is satisfied or would have to sleep: the oldest bytes, as many as
        there are. */
    method Drain(count: nat) returns (out: seq<int>)
      requires Valid(R())
      modifies this`tail
      ensures Valid(R()) && |out| == Min(count, old(Size(R()))) && old(Contents(R())) == out + Contents(R())
    {
      hide Size, Contents, ReadLen, ReadChunk, Wrap;
      out := [];
      var left: nat := count;
      while left > 0 && PipeSize() != 0
        invariant Valid(R()) && left + |out| == count && old(Contents(R())) == out + Contents(R())
        decreases left
      {
        ReadIsFront(R(), left);
        ghost var c := Contents(R());
        var x := CopyOut(left);
        assert out + c == (out + x) + Contents(R());
        out := out + x;
        left := left - |x|;
      }
    }

    /** write_pipe up to the point where it is done or would have to sleep. */
    method Fill(bytes: seq<int>) returns (written: nat)
      requires Valid(R())
      modifies this`head, page
      ensures Valid(R()) && written == Min(|bytes|, CAPACITY - old(Size(R())))
      ensures Contents(R()) == old(Contents(R())) + bytes[..written]
    {
      hide Size, Contents, WriteLen, WriteChunk, Wrap;
      written := 0;
      while written < |bytes| && CAPACITY - PipeSize() != 0
        invariant Valid(R()) && written <= |bytes| && Contents(R()) == old(Contents(R())) + bytes[..written]
        decreases |bytes| - written
      {
        WriteIsBack(R(), bytes[written..]);
        ghost var w := written;
        var n := CopyIn(bytes[written..]);
        written := written + n;
        assert bytes[..written] == bytes[..w] + bytes[w..][..n];
      }
    }
  }

  // ---------------------------------------------------------------- one reader and one writer

  datatype Who = Nobody | TheReader | TheWriter

  /** Where a call of read_pipe is: at its loop with left bytes to go, or in sleep_on, still asleep or made
      runnable again. */
  datatype Reader = RIdle | RBusy(left: nat) | RAsleep(left: nat) | RWoken(left: nat)
  datatype Writer = WIdle | WBusy(todo: seq<int>) | WAsleep(todo: seq<int>) | WWoken(todo: seq<int>)

  /** count is i_count and wait is i_wait; rtmp and wtmp are the sleepers' local variables in sleep_on.
      got and put are all the bytes read and written so far. */
  datatype System = System(ring: Ring, count: nat, wait: Who, rtmp: Who, wtmp: Who, reader: Reader, writer: Writer,
                           rOpen: bool, wOpen: bool, got: seq<int>, put: seq<int>)

  datatype Event =
    | ReadCall(n: nat) | ReadSome | ReadWait | ReadBack | ReadEnd | CloseRead
    | WriteCall(bytes: seq<int>) | WriteSome | WriteWait | WriteBack | WriteEnd | CloseWrite

  function Rouse(s: System, w: Who): System {
    if w == TheReader && s.reader.RAsleep? then s.(reader := RWoken(s.reader.left))
    else if w == TheWriter && s.writer.WAsleep? then s.(writer := WWoken(s.writer.todo))
    else s
  }

  /** wake_up(&inode->i_wait). */
  function WakeUp(s: System): System {
    Rouse(s, s.wait).(wait := Nobody)
  }

  predicate Enabled(s: System, e: Event) {
    && Valid(s.ring)
    && match e
       case ReadCall(n) => s.rOpen && s.reader.RIdle?
       case ReadSome => s.reader.RBusy? && s.reader.left > 0 && Size(s.ring) != 0
       case ReadWait => s.reader.RBusy? && s.reader.left > 0 && Size(s.ring) == 0
       case ReadBack => s.reader.RWoken?
       case ReadEnd => s.reader.RBusy? && s.reader.left == 0
       case CloseRead => s.rOpen && s.reader.RIdle? && s.count > 0
       case WriteCall(bytes) => s.wOpen && s.writer.WIdle?
       case WriteSome => s.writer.WBusy? && s.writer.todo != [] && Size(s.ring) != CAPACITY
       case WriteWait => s.writer.WBusy? && s.writer.todo != [] && Size(s.ring) == CAPACITY
       case WriteBack => s.writer.WWoken?
       case WriteEnd => s.writer.WBusy? && s.writer.todo == []
       case CloseWrite => s.wOpen && s.writer.WIdle? && s.count > 0
  }

  function Next(s: System, e: Event): System
    requires Enabled(s, e)
  {
    match e
    case ReadCall(n) => s.(reader := RBusy(n))
    case ReadSome =>
      var x := ReadChunk(s.ring, s.reader.left);
      s.(ring := x.0, got := s.got + x.1, reader := RBusy(s.reader.left - ReadLen(s.ring, s.reader.left)))
    case ReadWait =>
      var w := WakeUp(s);
      if s.count != 2 then w.(reader := RIdle)
      else w.(rtmp := w.wait, wait := TheReader, reader := RAsleep(s.reader.left))
    case ReadBack => Rouse(s, s.rtmp).(reader := RBusy(s.reader.left))
    case ReadEnd => WakeUp(s).(reader := RIdle)
    case CloseRead => WakeUp(s).(count := s.count - 1, rOpen := false)
    case WriteCall(bytes) => s.(writer := WBusy(bytes))
    case WriteSome =>
      var n := WriteLen(s.ring, |s.writer.todo|);
      s.(ring := WriteChunk(s.ring, s.writer.todo), put := s.put + s.writer.todo[..n],
          writer := WBusy(s.writer.todo[n..]))
    case WriteWait =>
      var w := WakeUp(s);
      if s.count != 2 then w.(writer := WIdle)
      else w.(wtmp := w.wait, wait := TheWriter, writer := WAsleep(s.writer.todo))
    case WriteBack => Rouse(s, s.wtmp).(writer := WBusy(s.writer.todo))
    case WriteEnd => WakeUp(s).(writer := WIdle)
    case CloseWrite => WakeUp(s).(count := s.count - 1, wOpen := false)
  }

  /** First in, first out: what was read is a prefix of what was written, and the rest is in the pipe. */
  ghost predicate Fifo(s: System) {
    Valid(s.ring) && s.put == s.got + Contents(s.ring)
  }

  ghost predicate Waiting(s: System) {
    && Valid(s.ring)
    && s.count == (if s.rOpen then 1 else 0) + (if s.wOpen then 1 else 0)
    && (!s.rOpen ==> s.reader.RIdle?) && (!s.wOpen ==> s.writer.WIdle?)
    && (s.reader.RAsleep? <==> s.wait == TheReader) && (s.writer.WAsleep? <==> s.wait == TheWriter)
    && (s.reader.RAsleep? || s.reader.RWoken? ==> s.rtmp == Nobody)
    && (s.writer.WAsleep? || s.writer.WWoken? ==> s.wtmp == Nobody)
    && (s.reader.RAsleep? ==> s.count == 2 && (Size(s.ring) != 0 ==> s.writer.WBusy?))
    && (s.writer.WAsleep? ==> s.count == 2 && (Size(s.ring) != CAPACITY ==> s.reader.RBusy?))
  }

  ghost predicate Inv(s: System) {
    Fifo(s) && Waiting(s)
  }

  lemma StepIsFifo(s: System, e: Event)
    requires Enabled(s, e) && Fifo(s)
    ensures Fifo(Next(s, e)) && s.got <= Next(s, e).got && s.put <= Next(s, e).put
  {
    hide Size, Contents, ReadLen, WriteLen, Wrap, ReadChunk, WriteChunk;
    if e.ReadSome? {
      ReadIsFront(s.ring, s.reader.left);
      var x := ReadChunk(s.ring, s.reader.left);
      assert s.got + (x.1 + Contents(x.0)) == (s.got + x.1) + Contents(x.0);
    } else if e.WriteSome? {
      WriteIsBack(s.ring, s.writer.todo);
      var b := s.writer.todo[..WriteLen(s.ring, |s.writer.todo|)];
      assert (s.got + Contents(s.ring)) + b == s.got + (Contents(s.ring) + b);
    } else {
      OthersMoveNothing(s, e);
      hide Next, Enabled;
    }
  }

  lemma OthersMoveNothing(s: System, e: Event)
    requires Enabled(s, e) && !e.ReadSome? && !e.WriteSome?
    ensures Next(s, e).ring == s.ring && Next(s, e).got == s.got && Next(s, e).put == s.put
  {
    hide Size, Contents, ReadLen, WriteLen, Wrap, ReadChunk, WriteChunk, Rouse, WakeUp;
    RouseMovesNothing(s, s.rtmp);
    RouseMovesNothing(s, s.wtmp);
    WakeMovesNothing(s);
  }

  lemma RouseMovesNothing(s: System, w: Who)
    ensures Rouse(s, w).ring == s.ring && Rouse(s, w).got == s.got && Rouse(s, w).put == s.put
  {
  }

  lemma WakeMovesNothing(s: System)
    ensures WakeUp(s).ring == s.ring && WakeUp(s).got == s.got && WakeUp(s).put == s.put
  {
  }

  lemma StepWaits(s: System, e: Event)
    requires Enabled(s, e) && Waiting(s)
    ensures Waiting(Next(s, e))
  {
    hide Size, Contents, Wrap, ReadChunk, WriteChunk;
  }

  ghost predicate EnabledRun(s: System, es: seq<Event>)
    decreases |es|
  {
    es == [] || (Enabled(s, es[0]) && EnabledRun(Next(s, es[0]), es[1..]))
  }

  ghost function Last(s: System, es: seq<Event>): System
    requires EnabledRun(s, es)
    decreases |es|
  {
    if es == [] then s else Last(Next(s, es[0]), es[1..])
  }

  /** An empty pipe open at both ends. */
  ghost predicate Fresh(s: System) {
    && Valid(s.ring) && Size(s.ring) == 0 && s.count == 2 && s.rOpen && s.wOpen && s.wait == Nobody
    && s.reader == RIdle && s.writer == WIdle && s.got == [] && s.put == []
  }

  lemma {:induction false} RunKeeps(s: System, es: seq<Event>)
    requires EnabledRun(s, es) && Inv(s)
    ensures Inv(Last(s, es))
    decreases |es|
  {
    if es != [] {
      StepIsFifo(s, es[0]);
      StepWaits(s, es[0]);
      hide Fifo, Waiting, Enabled, Next;
      RunKeeps(Next(s, es[0]), es[1..]);
    }
  }

  /** Under every interleaving from a fresh pipe: the bytes read are a prefix of those written, PIPE_SIZE is the
      difference, the reader and the writer are never both asleep, and nobody sleeps on a pipe with a closed
      end. */
  lemma PipeIsFifo(s: System, es: seq<Event>)
    requires Fresh(s) && EnabledRun(s, es)
    ensures var t := Last(s, es);
            && Valid(t.ring) && t.got <= t.put && t.put[|t.got|..] == Contents(t.ring)
            && |t.put| - |t.got| == Size(t.ring) <= CAPACITY
            && !(t.reader.RAsleep? && t.writer.WAsleep?)
            && (t.reader.RAsleep? || t.writer.WAsleep? ==> t.rOpen && t.wOpen)
  {
    RunKeeps(s, es);
  }

  // ---------------------------------------------------------------- what a call returns

  function Left(r: Reader): nat {
    match r
    case RIdle => 0
    case RBusy(n) => n
    case RAsleep(n) => n
    case RWoken(n) => n
  }

  function Todo(w: Writer): seq<int> {
    match w
    case WIdle => []
    case WBusy(bytes) => bytes
    case WAsleep(bytes) => bytes
    case WWoken(bytes) => bytes
  }

  /** A reader that finds the pipe empty sleeps exactly when the pipe is still open for writing, and otherwise
      returns. */
  lemma EmptyPipe(s: System)
    requires Enabled(s, ReadWait) && Waiting(s)
    ensures var r := Next(s, ReadWait);
            && Size(s.ring) == 0 && r.ring == s.ring && r.got == s.got
            && r.reader == (if s.wOpen then RAsleep(s.reader.left) else RIdle)
            && (s.writer.WAsleep? ==> r.writer == WWoken(s.writer.todo))
  {
    hide Contents, Wrap, ReadChunk, WriteChunk;
  }

  /** A writer that finds it full sleeps exactly when it is still open for reading. */
  lemma FullPipe(s: System)
    requires Enabled(s, WriteWait) && Waiting(s)
    ensures var r := Next(s, WriteWait);
            && Size(s.ring) == CAPACITY && r.ring == s.ring && r.put == s.put
            && r.writer == (if s.rOpen then WAsleep(s.writer.todo) else WIdle)
            && (s.reader.RAsleep? ==> r.reader == RWoken(s.reader.left))
  {
    hide Contents, Wrap, ReadChunk, WriteChunk;
  }

  /** The n-th byte is where the call of read_pipe in progress is to get to; or it has returned early from an empty
      pipe that nobody will write to. */
  ghost predicate ReadsTo(s: System, n: nat) {
    |s.got| + Left(s.reader) == n || (Valid(s.ring) && s.reader.RIdle? && Size(s.ring) == 0 && !s.wOpen)
  }

  lemma StepReadsTo(s: System, e: Event, n: nat)
    requires Inv(s) && Enabled(s, e) && !e.ReadCall? && ReadsTo(s, n)
    ensures ReadsTo(Next(s, e), n)
  {
    hide Contents, Wrap, WriteChunk;
    if e.ReadWait? { EmptyPipe(s); } else if e.WriteWait? { FullPipe(s); }
  }

  /** A call of read_pipe returns all the bytes it was asked for, unless the pipe is empty and its other end closed. */
  lemma {:induction false} ReadReturns(s: System, es: seq<Event>, n: nat)
    requires Inv(s) && EnabledRun(s, es) && ReadsTo(s, n) && forall e :: e in es ==> !e.ReadCall?
    ensures ReadsTo(Last(s, es), n)
    ensures var t := Last(s, es); t.reader.RIdle? ==> |t.got| == n || (Valid(t.ring) && Size(t.ring) == 0 && !t.wOpen)
    decreases |es|
  {
    if es != [] {
      assert es[0] in es;
      StepReadsTo(s, es[0], n);
      StepIsFifo(s, es[0]);
      StepWaits(s, es[0]);
      hide Fifo, Waiting, Enabled, Next, ReadsTo;
      ReadReturns(Next(s, es[0]), es[1..], n);
    }
  }

  /** all are the bytes written when the call of write_pipe in progress is through; or it has returned early because
      nobody will read. */
  ghost predicate WritesUpTo(s: System, all: seq<int>) {
    s.put + Todo(s.writer) == all || (s.writer.WIdle? && !s.rOpen)
  }

  lemma StepWritesUpTo(s: System, e: Event, all: seq<int>)
    requires Inv(s) && Enabled(s, e) && !e.WriteCall? && WritesUpTo(s, all)
    ensures WritesUpTo(Next(s, e), all)
  {
    hide Contents, Wrap, ReadChunk, WriteChunk, Size;
    if e.WriteSome? {
      var b, n := s.writer.todo, WriteLen(s.ring, |s.writer.todo|);
      assert (s.put + b[..n]) + b[n..] == s.put + b;
    }
  }

  /** A call of write_pipe writes all its bytes, unless the other end is closed. */
  lemma {:induction false} WriteReturns(s: System, es: seq<Event>, all: seq<int>)
    requires Inv(s) && EnabledRun(s, es) && WritesUpTo(s, all) && forall e :: e in es ==> !e.WriteCall?
    ensures WritesUpTo(Last(s, es), all)
    ensures var t := Last(s, es); t.writer.WIdle? ==> t.put == all || !t.rOpen
    decreases |es|
  {
    if es != [] {
      assert es[0] in es;
      StepWritesUpTo(s, es[0], all);
      StepIsFifo(s, es[0]);
      StepWaits(s, es[0]);
      hide Fifo, Waiting, Enabled, Next, WritesUpTo;
      WriteReturns(Next(s, es[0]), es[1..], all);
    }
  }

  /** Both hold from the moment of the call. */
  lemma CallsBegin(s: System, n: nat, bytes: seq<int>)
    ensures Enabled(s, ReadCall(n)) ==> ReadsTo(Next(s, ReadCall(n)), |s.got| + n)
    ensures Enabled(s, WriteCall(bytes)) ==> WritesUpTo(Next(s, WriteCall(bytes)), s.put + bytes)
  {
  }

  // ---------------------------------------------------------------- no wake-up is missed

  predicate OwnStep(e: Event) {
    !e.ReadCall? && !e.WriteCall? && !e.CloseRead? && !e.CloseWrite?
  }

  /** No wake-up is missed: when no call in progress can take a step, either there is none, or the reader sleeps
      on an empty pipe, or the writer on a full one, and the other is not in a call. */
  lemma StuckOnlyWhenRightlyAsleep(s: System)
    requires Inv(s) && forall e :: Enabled(s, e) ==> !OwnStep(e)
    ensures || (s.reader.RIdle? && s.writer.WIdle?)
            || (s.reader.RAsleep? && s.writer.WIdle? && Size(s.ring) == 0)
            || (s.writer.WAsleep? && s.reader.RIdle? && Size(s.ring) == CAPACITY)
  {
    assert !Enabled(s, ReadSome) && !Enabled(s, ReadWait) && !Enabled(s, ReadBack) && !Enabled(s, ReadEnd);
    assert !Enabled(s, WriteSome) && !Enabled(s, WriteWait) && !Enabled(s, WriteBack) && !Enabled(s, WriteEnd);
  }

  /** How far the calls in progress are from being over or rightly asleep. A sleeper that is due to be woken counts
      more than one that is not. */
  function Distance(s: System): nat
    requires Valid(s.ring)
  {
    8 * (Left(s.reader) + |Todo(s.writer)|)
    + (match s.reader
       case RIdle => 0
       case RAsleep(_) => if Size(s.ring) == 0 then 2 else 5
       case RBusy(_) => 3
       case RWoken(_) => 4)
    + (match s.writer
       case WIdle => 0
       case WAsleep(_) => if Size(s.ring) == CAPACITY then 2 else 5
       case WBusy(_) => 3
       case WWoken(_) => 4)
  }

  /** Every step of a call brings the calls nearer to that: without new calls there are no more steps than the distance
      allows, so each call returns or sleeps rightly. */
  lemma OwnStepsEnd(s: System, e: Event)
    requires Inv(s) && Enabled(s, e) && OwnStep(e)
    ensures Valid(Next(s, e).ring) && Distance(Next(s, e)) < Distance(s)
  {
    StepIsFifo(s, e);
    if e.ReadSome? {
      ReadIsFront(s.ring, s.reader.left);
    } else if e.WriteSome? {
      WriteIsBack(s.ring, s.writer.todo);
    } else if e.ReadWait? {
      EmptyPipe(s);
    } else if e.WriteWait? {
      FullPipe(s);
    }
    hide Contents, Wrap, ReadChunk, WriteChunk, Size;
  }

  lemma {:induction false} OwnRunsEnd(s: System, es: seq<Event>)
    requires Inv(s) && EnabledRun(s, es) && forall e :: e in es ==> OwnStep(e)
    ensures |es| <= Distance(s)
    decreases |es|
  {
    if es != [] {
      assert es[0] in es;
      OwnStepsEnd(s, es[0]);
      StepIsFifo(s, es[0]);
      StepWaits(s, es[0]);
      hide Fifo, Waiting, Enabled, Next, Distance;
      OwnRunsEnd(Next(s, es[0]), es[1..]);
    }
  }
}
