// One forwarder under asyncio's own schedule. `Forwarder` allows every schedule; here the ready queue is
// first-in first-out, and the reader is fed from a stream buffer that stops reading the socket when full.
module EventLoop {
  import opened Chunks
  import opened QueueSpec
  import F = Forwarder

  /** The most bytes that one call of the transport's `recv` delivers, and the default of `limit`. */
  const RECV: nat := 262144
  const DEFAULT_LIMIT: nat := 65536

  /** The task of the forwarder that runs; it goes on until it suspends itself. */
  datatype Turn = Nobody | ReaderRuns | WriterRuns

  /** `buffer`, `eof`, `paused`: the stream reader's buffer, its end, and whether the socket is being read. */
  datatype Loop = Loop(h: F.Hop, limit: nat, buffer: Bytes, eof: bool, paused: bool, turn: Turn)

  datatype Event = Feed(data: Bytes) | FeedEof | WakeReader | SuspendReader | Step(f: F.Event)

  function New(limit: nat): Loop
  {
    Loop(F.NewHop(), limit, [], false, false, Nobody)
  }

  /** What `read` returns at once from a buffer that is not empty. */
  function Front(buffer: Bytes): Bytes
  {
    if |buffer| <= READ_SIZE then buffer else buffer[..READ_SIZE]
  }

  function Rest(buffer: Bytes): Bytes
  {
    if |buffer| <= READ_SIZE then [] else buffer[READ_SIZE..]
  }

  /** The writer task is in the ready queue: not started yet, or notified. */
  predicate WriterDue(h: F.Hop)
  {
    h.w.WriteStart? || h.w.Notified?
  }

  /**
   * The reader is woken only by new data, which enters the ready queue after a writer that is already
   * there. The reader task was created before the writer task.
   */
  predicate Enabled(s: Loop, e: Event)
  {
    match e
    case Feed(data) => s.turn.Nobody? && !s.eof && !s.paused && 1 <= |data| <= RECV
    case FeedEof => s.turn.Nobody? && !s.eof && !s.paused
    case WakeReader => s.turn.Nobody? && s.h.r.Reading? && !s.h.cancelled && !WriterDue(s.h)
    case SuspendReader => s.turn.ReaderRuns? && s.buffer == [] && !s.eof
    case Step(f) => F.Enabled(s.h, f) && MayStep(s, f)
  }

  predicate MayStep(s: Loop, f: F.Event)
  {
    match f
    case StartWrite => s.turn.Nobody? && !s.h.r.ReadStart?
    case Read(data) => s.turn.ReaderRuns? && data == Front(s.buffer)
    case EndRead(why) => s.turn.ReaderRuns? && (why.Eof? ==> s.buffer == [] && s.eof)
    case Write(_) => s.turn.WriterRuns?
    case Park => s.turn.WriterRuns?
    case Finish => s.turn.WriterRuns?
    case _ => s.turn.Nobody?
  }

  function TurnAfter(f: F.Event): Turn
  {
    match f
    case StartRead => ReaderRuns
    case Read(_) => ReaderRuns
    case StartWrite => WriterRuns
    case Resume => WriterRuns
    case Write(ok) => if ok then WriterRuns else Nobody
    case _ => Nobody
  }

  function Next(s: Loop, e: Event): Loop
    requires Enabled(s, e)
  {
    match e
    case Feed(data) =>
      s.(buffer := s.buffer + data, paused := |s.buffer| + |data| > 2 * s.limit)
    case FeedEof => s.(eof := true)
    case WakeReader => s.(turn := ReaderRuns)
    case SuspendReader => s.(turn := Nobody)
    case Step(f) =>
      var s' := s.(h := F.Next(s.h, f), turn := TurnAfter(f));
      if f.Read? then s'.(buffer := Rest(s.buffer), paused := s.paused && |Rest(s.buffer)| > s.limit) else s'
  }

  predicate CanRun(s: Loop, es: seq<Event>)
    decreases |es|
  {
    es == [] || (Enabled(s, es[0]) && CanRun(Next(s, es[0]), es[1..]))
  }

  function Exec(s: Loop, es: seq<Event>): Loop
    requires CanRun(s, es)
    decreases |es|
  {
    if es == [] then s else Exec(Next(s, es[0]), es[1..])
  }

  // The forwarder's part of a run.

  function HopEvents(es: seq<Event>): seq<F.Event>
  {
    if es == [] then [] else (if es[0].Step? then [es[0].f] else []) + HopEvents(es[1..])
  }

  lemma {:induction false} HopRuns(s: Loop, es: seq<Event>)
    requires CanRun(s, es)
    ensures F.CanRun(s.h, HopEvents(es)) && F.Exec(s.h, HopEvents(es)) == Exec(s, es).h
    decreases |es|
  {
    if es == [] {
    } else {
      HopRuns(Next(s, es[0]), es[1..]);
      if es[0].Step? {
        assert HopEvents(es)[1..] == HopEvents(es[1..]);
      } else {
        assert HopEvents(es) == HopEvents(es[1..]);
      }
    }
  }

  /** A trace of a forwarder that asyncio can produce with stream buffers of this limit. */
  ghost predicate Fifo(limit: nat, trace: seq<F.Event>)
  {
    exists es :: CanRun(New(limit), es) && HopEvents(es) == trace
  }

  // What is read is what was fed.

  function FedBy(e: Event): Bytes
  {
    if e.Feed? then e.data else []
  }

  /** All bytes that the transport has delivered. */
  function FedBytes(es: seq<Event>): Bytes
  {
    if es == [] then [] else FedBy(es[0]) + FedBytes(es[1..])
  }

  lemma FrontAndRest(buffer: Bytes)
    ensures Front(buffer) + Rest(buffer) == buffer
  {
  }

  /** What has been read, followed by what is buffered. */
  function Seen(s: Loop): Bytes
  {
    Flat(s.h.got) + s.buffer
  }

  lemma ReadKeepsOrder(s: Loop, data: Bytes)
    requires Enabled(s, Step(F.Read(data)))
    ensures Seen(Next(s, Step(F.Read(data)))) == Seen(s)
  {
    FlatSnoc(s.h.got, data);
    FrontAndRest(s.buffer);
    assert (Flat(s.h.got) + data) + Rest(s.buffer) == Flat(s.h.got) + (data + Rest(s.buffer));
  }

  lemma StepKeepsOrder(s: Loop, e: Event)
    requires Enabled(s, e)
    ensures Seen(Next(s, e)) == Seen(s) + FedBy(e)
  {
    match e
    case Feed(data) => assert Flat(s.h.got) + (s.buffer + data) == (Flat(s.h.got) + s.buffer) + data;
    case Step(Read(data)) => ReadKeepsOrder(s, data);
    case _ =>
  }

  lemma {:induction false} ReadsInOrder(s: Loop, es: seq<Event>)
    requires CanRun(s, es)
    ensures Seen(Exec(s, es)) == Seen(s) + FedBytes(es)
    decreases |es|
  {
    if es == [] {
      assert Seen(s) + [] == Seen(s);
    } else {
      StepKeepsOrder(s, es[0]);
      ReadsInOrder(Next(s, es[0]), es[1..]);
      Regroup(Seen(s), FedBy(es[0]), FedBytes(es[1..]));
    }
  }

  /** End-of-file is seen only behind all data. */
  predicate EofIsLast(s: Loop)
  {
    s.h.r == F.ReadDone(F.Eof) ==> s.eof && s.buffer == []
  }

  lemma {:induction false} EofStaysLast(s: Loop, es: seq<Event>)
    requires CanRun(s, es) && EofIsLast(s)
    ensures EofIsLast(Exec(s, es)) && (Exec(s, es).eof <==> s.eof || FeedEof in es)
    decreases |es|
  {
    if es == [] {
    } else {
      EofStaysLast(Next(s, es[0]), es[1..]);
    }
  }

  /**
   * In every run the chunks read so far, followed by what is still buffered, are the bytes that were fed,
   * in order; a reader that saw end-of-file has read all of them.
   */
  lemma ReadsWhatWasFed(limit: nat, es: seq<Event>)
    requires CanRun(New(limit), es)
    ensures var s := Exec(New(limit), es);
            && Flat(s.h.got) + s.buffer == FedBytes(es)
            && (s.h.r == F.ReadDone(F.Eof) ==> FeedEof in es && Flat(s.h.got) == FedBytes(es))
  {
    ReadsInOrder(New(limit), es);
    EofStaysLast(New(limit), es);
    assert [] + FedBytes(es) == FedBytes(es);
  }

  // A limit for which the queue never overflows.

  /** Everything that can be buffered fits into the queue. */
  predicate SafeLimit(limit: nat)
  {
    2 * limit + RECV <= F.MAX_CHUNKS * READ_SIZE
  }

  ghost predicate BufferFits(s: Loop)
  {
    && |s.buffer| <= 2 * s.limit + RECV
    && (!s.paused ==> |s.buffer| <= 2 * s.limit)
  }

  ghost predicate Turns(s: Loop)
  {
    && (s.turn.ReaderRuns? ==> s.h.r.Reading? && !s.h.cancelled)
    && (s.turn.WriterRuns? <==> s.h.w.Running?)
    && (s.h.r.ReadStart? ==> s.h.got == [])
  }

  /** In a burst the queue holds full chunks of what was buffered when the burst began. */
  ghost predicate Burst(s: Loop)
  {
    s.turn.ReaderRuns? && s.buffer != [] && s.h.failed == [] ==>
      |s.h.q.items| * READ_SIZE + |s.buffer| <= 2 * s.limit + RECV
  }

  ghost predicate Kept(h: F.Hop)
  {
    h.written <= h.got && (h.failed == [] ==> h.q.lost == [])
  }

  ghost predicate Inv(s: Loop)
  {
    F.Valid(s.h) && BufferFits(s) && Turns(s) && Burst(s) && Kept(s.h)
  }

  lemma NextKeepsBuffer(s: Loop, e: Event)
    requires BufferFits(s) && Enabled(s, e)
    ensures BufferFits(Next(s, e)) && Next(s, e).limit == s.limit
  {
  }

  lemma NextKeepsTurns(s: Loop, e: Event)
    requires F.Control(s.h) && Turns(s) && Enabled(s, e)
    ensures Turns(Next(s, e))
  {
  }

  /** Between turns, with no writer due, the queue has been drained, or no writer is left. */
  lemma DrainedBetweenTurns(s: Loop)
    requires F.Control(s.h) && F.Books(s.h) && s.h.q.Valid() && Turns(s) && s.turn.Nobody?
    requires s.h.r.ReadStart? || (s.h.r.Reading? && !s.h.cancelled && !WriterDue(s.h))
    ensures s.h.failed == [] ==> s.h.q.items == []
  {
    if s.h.w.WriteDone? {
      assert s.h.w.how.Drained? || s.h.w.how.WriteFailed? || s.h.w.how.WriteCancelled?;
    }
  }

  lemma NextKeepsBurst(s: Loop, e: Event)
    requires F.Control(s.h) && F.Books(s.h) && s.h.q.Valid() && BufferFits(s) && Turns(s) && Burst(s) && Enabled(s, e)
    ensures Burst(Next(s, e))
  {
    match e {
      case WakeReader => DrainedBetweenTurns(s);
      case Step(StartRead) => DrainedBetweenTurns(s);
      case Step(Read(data)) =>
        var q' := Put(s.h.q, data);
        assert |q'.items| <= |s.h.q.items| + 1;
      case _ =>
    }
  }

  lemma WriteKeepsPrefix(h: F.Hop, ok: bool)
    requires F.Valid(h) && Kept(h) && F.Enabled(h, F.Write(ok))
    ensures Kept(F.Next(h, F.Write(ok)))
  {
    assert h.failed == [] && h.q.lost == [];
    F.NextKeepsValid(h, F.Write(ok));
    var h' := F.Next(h, F.Write(ok));
    assert h'.q.out <= h'.got && h'.written <= h'.q.out;
  }

  lemma ReadKeepsKept(h: F.Hop, data: Bytes)
    requires Kept(h) && F.Enabled(h, F.Read(data)) && h.q.max == F.MAX_CHUNKS
    requires h.failed == [] ==> |h.q.items| < F.MAX_CHUNKS
    ensures Kept(F.Next(h, F.Read(data)))
  {
  }

  lemma OtherStepKeepsKept(h: F.Hop, f: F.Event)
    requires Kept(h) && F.Enabled(h, f) && !f.Read? && !f.Write?
    ensures Kept(F.Next(h, f))
  {
  }

  lemma NextKeepsKept(s: Loop, e: Event)
    requires SafeLimit(s.limit) && F.Valid(s.h) && Burst(s) && Kept(s.h) && Enabled(s, e)
    ensures Kept(Next(s, e).h)
  {
    match e {
      case Step(Write(ok)) => WriteKeepsPrefix(s.h, ok);
      case Step(Read(data)) => ReadKeepsKept(s.h, data);
      case Step(f) => OtherStepKeepsKept(s.h, f);
      case _ =>
    }
  }

  lemma NextKeepsInv(s: Loop, e: Event)
    requires SafeLimit(s.limit) && Inv(s) && Enabled(s, e)
    ensures Inv(Next(s, e)) && Next(s, e).limit == s.limit
  {
    NextKeepsBuffer(s, e);
    NextKeepsTurns(s, e);
    NextKeepsBurst(s, e);
    NextKeepsKept(s, e);
    if e.Step? { F.NextKeepsValid(s.h, e.f); }
  }

  lemma {:induction false} ExecKeepsInv(s: Loop, es: seq<Event>)
    requires SafeLimit(s.limit) && Inv(s) && CanRun(s, es)
    ensures Inv(Exec(s, es))
    decreases |es|
  {
    if es == [] {
    } else {
      NextKeepsInv(s, es[0]);
      ExecKeepsInv(Next(s, es[0]), es[1..]);
    }
  }

  /**
   * With a safe limit, in every run: what is written is a prefix of what was read, whatever fails or is
   * cancelled; nothing is evicted unless a write raised; the queue is empty whenever the reader is about
   * to be woken; and a forwarder that ends without a cancellation or a raising write has written all.
   */
  lemma NothingEvicted(limit: nat, es: seq<Event>)
    requires SafeLimit(limit) && CanRun(New(limit), es)
    ensures var s := Exec(New(limit), es);
            && s.h.written <= s.h.got
            && (s.h.failed == [] ==> s.h.q.lost == [])
            && (Enabled(s, WakeReader) && s.h.failed == [] ==> s.h.q.items == [])
            && (s.h.ended && !s.h.cancelled && s.h.failed == [] ==> s.h.written == s.h.got)
  {
    ExecKeepsInv(New(limit), es);
    var s := Exec(New(limit), es);
    if Enabled(s, WakeReader) { DrainedBetweenTurns(s); }
    if s.h.ended && !s.h.cancelled && s.h.failed == [] {
      F.EndsDrained(s.h);
      F.PrefixWithoutLoss(s.h);
    }
  }

  /** No write that raises, and no cancellation issued while chunks are queued. */
  predicate Undisturbed(s: Loop, es: seq<Event>)
    requires CanRun(s, es)
    decreases |es|
  {
    es == [] || (!Disturbs(s, es[0]) && Undisturbed(Next(s, es[0]), es[1..]))
  }

  predicate Disturbs(s: Loop, e: Event)
  {
    e == Step(F.Write(false)) || (e == Step(F.Cancel) && s.h.q.items != [])
  }

  lemma CleanIffUndisturbed(s: Loop, f: F.Event)
    requires SafeLimit(s.limit) && Burst(s) && s.h.failed == [] && Enabled(s, Step(f))
    ensures F.CleanStep(s.h, f) <==> !Disturbs(s, Step(f))
  {
  }

  lemma SpoiledIffDisturbs(s: Loop, e: Event)
    requires SafeLimit(s.limit) && F.Valid(s.h) && Burst(s) && Enabled(s, e)
    ensures F.Spoiled(Next(s, e).h) <==> F.Spoiled(s.h) || Disturbs(s, e)
  {
    match e {
      case Step(f) =>
        F.SpoiledIff(s.h, f);
        if s.h.failed == [] { CleanIffUndisturbed(s, f); }
      case _ =>
    }
  }

  lemma {:induction false} SpoiledIffDisturbed(s: Loop, es: seq<Event>)
    requires SafeLimit(s.limit) && Inv(s) && CanRun(s, es)
    ensures F.Spoiled(Exec(s, es).h) <==> F.Spoiled(s.h) || !Undisturbed(s, es)
    decreases |es|
  {
    if es == [] {
    } else {
      NextKeepsInv(s, es[0]);
      SpoiledIffDisturbs(s, es[0]);
      SpoiledIffDisturbed(Next(s, es[0]), es[1..]);
    }
  }

  /**
   * With a safe limit a forwarder that has ended has written all it read, however it ended, if and only if
   * no write raised and no cancellation was issued while chunks were queued.
   */
  lemma DeliversIffUndisturbed(limit: nat, es: seq<Event>)
    requires SafeLimit(limit) && CanRun(New(limit), es) && Exec(New(limit), es).h.ended
    ensures var h := Exec(New(limit), es).h; h.written == h.got <==> Undisturbed(New(limit), es)
  {
    ExecKeepsInv(New(limit), es);
    SpoiledIffDisturbed(New(limit), es);
    F.EndedDeliversIff(Exec(New(limit), es).h);
  }

  /** What `NothingEvicted` says, for the forwarder's own trace. */
  lemma FifoDelivers(limit: nat, trace: seq<F.Event>)
    requires SafeLimit(limit) && Fifo(limit, trace)
    ensures F.CanRun(F.NewHop(), trace)
    ensures var h := F.Exec(F.NewHop(), trace);
            h.written <= h.got && (F.RanToEof(h) ==> h.written == h.got)
  {
    var es :| CanRun(New(limit), es) && HopEvents(es) == trace;
    HopRuns(New(limit), es);
    NothingEvicted(limit, es);
  }

  // Every run can be finished.

  /** Nothing has failed or been cancelled so far. */
  ghost predicate Sound(s: Loop)
  {
    && F.Control(s.h) && Turns(s) && EofIsLast(s) && (s.buffer == [] ==> !s.paused)
    && !s.h.cancelled && s.h.failed == [] && s.h.r != F.ReadDone(F.ReadFailed)
  }

  /** What a schedule can do next, without new data. */
  function Onward(s: Loop): Event
  {
    match s.turn
    case ReaderRuns =>
      if s.buffer != [] then Step(F.Read(Front(s.buffer))) else if s.eof then Step(F.EndRead(F.Eof)) else SuspendReader
    case WriterRuns => Step(F.Iteration(s.h, false))
    case Nobody =>
      if s.h.r.ReadStart? then Step(F.StartRead)
      else if s.h.w.WriteStart? then Step(F.StartWrite)
      else if s.h.w.Notified? then Step(F.Resume)
      else if s.h.r.ReadDone? then Step(F.Return)
      else if s.buffer != [] || s.eof then WakeReader else FeedEof
  }

  /** Both forwarder tasks' outstanding work: the writer's steps, and the reader's way back into a turn. */
  function Work(s: Loop): nat
  {
    (if s.h.ended then 0 else 1) + (if s.h.r.ReadStart? then 5 else 0) +
    (if s.turn.ReaderRuns? then 1 else if s.h.r.Reading? && (s.buffer != [] || s.eof) then 2 else 0) +
    (match s.h.w
     case WriteDone(_) => 0
     case Parked => 1
     case Running(_) => |s.h.q.items| + 2
     case _ => |s.h.q.items| + 3)
  }

  function InputLeft(s: Loop): nat
  {
    (if s.eof then 0 else 1) + (if s.h.r.ReadDone? then 0 else 1)
  }

  lemma OnwardIsEnabled(s: Loop)
    requires Sound(s) && !s.h.ended
    ensures Enabled(s, Onward(s)) && !Onward(s).Feed? && !Disturbs(s, Onward(s))
  {
  }

  lemma OnwardKeepsSound(s: Loop)
    requires Sound(s) && !s.h.ended && Enabled(s, Onward(s))
    ensures Sound(Next(s, Onward(s)))
  {
    NextKeepsTurns(s, Onward(s));
    if Onward(s).Step? { F.NextKeepsControl(s.h, Onward(s).f); }
  }

  lemma OnwardReducesWork(s: Loop)
    requires Sound(s) && !s.h.ended && Enabled(s, Onward(s))
    ensures var s' := Next(s, Onward(s));
            || InputLeft(s') < InputLeft(s)
            || (InputLeft(s') == InputLeft(s) && |s'.buffer| < |s.buffer|)
            || (InputLeft(s') == InputLeft(s) && |s'.buffer| == |s.buffer| && Work(s') < Work(s))
  {
  }

  lemma {:induction false} Finishes(s: Loop) returns (fs: seq<Event>)
    requires Sound(s)
    ensures CanRun(s, fs) && FedBytes(fs) == [] && Undisturbed(s, fs)
    ensures Sound(Exec(s, fs)) && Exec(s, fs).h.ended
    decreases InputLeft(s), |s.buffer|, Work(s)
  {
    if s.h.ended {
      fs := [];
    } else {
      OnwardIsEnabled(s);
      OnwardKeepsSound(s);
      OnwardReducesWork(s);
      var e := Onward(s);
      var rest := Finishes(Next(s, e));
      fs := [e] + rest;
      assert fs[1..] == rest;
    }
  }

  lemma EndedAtEof(s: Loop)
    requires Sound(s) && s.h.ended
    ensures F.RanToEof(s.h)
  {
    var why := s.h.r.why;
    assert why.Eof? || why.ReadFailed? || why.ReadCancelled?;
  }

  /** Some run leads on from `s` to end-of-file, without new data, and then all of `fed` has been read. */
  ghost predicate CanFinish(s: Loop, fs: seq<Event>, fed: Bytes)
  {
    && CanRun(s, fs) && FedBytes(fs) == []
    && var h := Exec(s, fs).h;
       && F.RanToEof(h) && Flat(h.got) == fed
       && (SafeLimit(s.limit) ==> Flat(h.written) == fed)
  }

  lemma {:induction false} SoundRun(s: Loop, es: seq<Event>)
    requires CanRun(s, es) && F.Control(s.h) && Turns(s) && EofIsLast(s) && (s.buffer == [] ==> !s.paused)
    ensures var s' := Exec(s, es);
            && F.Control(s'.h) && Turns(s') && EofIsLast(s') && (s'.buffer == [] ==> !s'.paused) && s'.limit == s.limit
    decreases |es|
  {
    if es == [] {
    } else {
      NextKeepsTurns(s, es[0]);
      if es[0].Step? { F.NextKeepsControl(s.h, es[0].f); }
      SoundRun(Next(s, es[0]), es[1..]);
    }
  }

  lemma FinishIsWritten(limit: nat, es: seq<Event>, fs: seq<Event>)
    requires CanRun(New(limit), es) && CanRun(Exec(New(limit), es), fs) && SafeLimit(limit)
    requires F.RanToEof(Exec(Exec(New(limit), es), fs).h)
    ensures var h := Exec(Exec(New(limit), es), fs).h; h.written == h.got
  {
    RunConcat(New(limit), es, fs);
    NothingEvicted(limit, es + fs);
  }

  lemma FinishIsRead(limit: nat, es: seq<Event>, fs: seq<Event>)
    requires CanRun(New(limit), es) && CanRun(Exec(New(limit), es), fs) && FedBytes(fs) == []
    requires var s' := Exec(Exec(New(limit), es), fs); EofIsLast(s') && F.RanToEof(s'.h)
    ensures Flat(Exec(Exec(New(limit), es), fs).h.got) == FedBytes(es)
  {
    var s := Exec(New(limit), es);
    ReadsInOrder(New(limit), es);
    ReadsInOrder(s, fs);
    assert Seen(s) + [] == Seen(s) && [] + FedBytes(es) == FedBytes(es);
    assert Seen(Exec(s, fs)) == Flat(Exec(s, fs).h.got);
  }

  /**
   * However a forwarder was scheduled so far, if nothing has failed or been cancelled then the run can go
   * on to end-of-file, and then everything fed so far has been read, and written if the limit is safe.
   */
  lemma EveryRunCanFinish(limit: nat, es: seq<Event>)
    requires CanRun(New(limit), es)
    requires var h := Exec(New(limit), es).h; !h.cancelled && h.failed == [] && h.r != F.ReadDone(F.ReadFailed)
    ensures exists fs :: CanFinish(Exec(New(limit), es), fs, FedBytes(es))
  {
    SoundRun(New(limit), es);
    var fs := Finishes(Exec(New(limit), es));
    EndedAtEof(Exec(Exec(New(limit), es), fs));
    FinishIsRead(limit, es, fs);
    if SafeLimit(limit) { FinishIsWritten(limit, es, fs); }
    assert CanFinish(Exec(New(limit), es), fs, FedBytes(es));
  }

  // Runs that exist.

  lemma {:induction false} RunConcat(s: Loop, a: seq<Event>, b: seq<Event>)
    requires CanRun(s, a) && CanRun(Exec(s, a), b)
    ensures CanRun(s, a + b) && Exec(s, a + b) == Exec(Exec(s, a), b)
    decreases |a|
  {
    if a == [] {
      assert a + b == b;
    } else {
      RunConcat(Next(s, a[0]), a[1..], b);
      assert (a + b)[1..] == a[1..] + b;
    }
  }

  ghost predicate Leads(limit: nat, es: seq<Event>, s: Loop)
  {
    CanRun(New(limit), es) && Exec(New(limit), es) == s
  }

  /** Extends a run by one event. */
  lemma Then(limit: nat, es: seq<Event>, s: Loop, e: Event) returns (es': seq<Event>, s': Loop)
    requires Leads(limit, es, s) && Enabled(s, e)
    ensures Leads(limit, es', s') && s' == Next(s, e)
  {
    assert [e][1..] == [];
    RunConcat(New(limit), es, [e]);
    es', s' := es + [e], Next(s, e);
  }

  /** The forwarder has started; the reader waits for data and the writer waits for the queue. */
  ghost predicate Idle(s: Loop)
  {
    && s.turn.Nobody? && s.buffer == [] && !s.eof && !s.paused
    && s.h.r.Reading? && s.h.w.Parked? && !s.h.cancelled && !s.h.ended
    && s.h.q.items == [] && !s.h.q.closed && s.h.q.max == F.MAX_CHUNKS && s.h.failed == []
  }

  lemma Starts(limit: nat) returns (es: seq<Event>, s: Loop)
    ensures Leads(limit, es, s) && Idle(s) && s.limit == limit
    ensures s.h.got == [] && s.h.written == [] && s.h.q.lost == []
  {
    es, s := [], New(limit);
    es, s := Then(limit, es, s, Step(F.StartRead));
    es, s := Then(limit, es, s, SuspendReader);
    es, s := Then(limit, es, s, Step(F.StartWrite));
    es, s := Then(limit, es, s, Step(F.Park));
  }

  lemma ByteIsRead(limit: nat, es: seq<Event>, s: Loop, b: Byte) returns (es': seq<Event>, s': Loop)
    requires Leads(limit, es, s) && Idle(s) && s.limit == limit >= 1
    ensures Leads(limit, es', s') && s'.limit == limit
    ensures s' == s.(h := F.Next(s.h, F.Read([b])))
  {
    assert Front([b]) == [b] && Rest([b]) == [];
    es', s' := Then(limit, es, s, Feed([b]));
    assert s'.buffer == [b];
    es', s' := Then(limit, es', s', WakeReader);
    es', s' := Then(limit, es', s', Step(F.Read([b])));
    es', s' := Then(limit, es', s', SuspendReader);
  }

  lemma ByteIsForwarded(limit: nat, es: seq<Event>, s: Loop, b: Byte) returns (es': seq<Event>, s': Loop)
    requires Leads(limit, es, s) && Idle(s) && s.limit == limit >= 1
    ensures Leads(limit, es', s') && Idle(s') && s'.limit == limit
    ensures s'.h.got == s.h.got + [[b]] && s'.h.written == s.h.written + [[b]]
  {
    es', s' := ByteIsRead(limit, es, s, b);
    assert s'.h.q.items == [[b]];
    es', s' := Then(limit, es', s', Step(F.Resume));
    es', s' := Then(limit, es', s', Step(F.Write(true)));
    es', s' := Then(limit, es', s', Step(F.Park));
  }

  lemma EndIsSeen(limit: nat, es: seq<Event>, s: Loop) returns (es': seq<Event>, s': Loop)
    requires Leads(limit, es, s) && Idle(s)
    ensures Leads(limit, es', s') && s'.turn.Nobody?
    ensures s'.h == s.h.(r := F.ReadDone(F.Eof), w := F.Notified, q := Close(s.h.q))
  {
    es', s' := Then(limit, es, s, FeedEof);
    es', s' := Then(limit, es', s', WakeReader);
    es', s' := Then(limit, es', s', Step(F.EndRead(F.Eof)));
  }

  lemma EndIsForwarded(limit: nat, es: seq<Event>, s: Loop) returns (es': seq<Event>, h': F.Hop)
    requires Leads(limit, es, s) && Idle(s)
    ensures CanRun(New(limit), es') && Exec(New(limit), es').h == h'
    ensures h' == s.h.(r := F.ReadDone(F.Eof), w := F.WriteDone(F.Drained), q := Close(s.h.q), ended := true)
  {
    var t: Loop;
    es', t := EndIsSeen(limit, es, s);
    es', t := Then(limit, es', t, Step(F.Resume));
    es', t := Then(limit, es', t, Step(F.Finish));
    es', t := Then(limit, es', t, Step(F.Return));
    h' := t.h;
  }

  lemma {:induction false} BytesAreForwarded(limit: nat, data: Bytes) returns (es: seq<Event>, s: Loop)
    requires limit >= 1
    ensures Leads(limit, es, s) && Idle(s) && s.limit == limit
    ensures Flat(s.h.got) == Flat(s.h.written) == data
  {
    if data == [] {
      es, s := Starts(limit);
    } else {
      var init, b := data[..|data| - 1], data[|data| - 1];
      es, s := BytesAreForwarded(limit, init);
      FlatSnoc(s.h.got, [b]);
      FlatSnoc(s.h.written, [b]);
      es, s := ByteIsForwarded(limit, es, s, b);
      assert init + [b] == data;
    }
  }

  /** Whatever the data, some run of asyncio forwards all of it. */
  lemma CanForward(limit: nat, data: Bytes) returns (es: seq<Event>)
    requires limit >= 1
    ensures CanRun(New(limit), es)
    ensures var h := Exec(New(limit), es).h;
            F.RanToEof(h) && Flat(h.got) == data && Flat(h.written) == data
  {
    var s, h;
    es, s := BytesAreForwarded(limit, data);
    es, h := EndIsForwarded(limit, es, s);
  }

  /** Also under this schedule a cancellation can drop a chunk that is queued for a notified writer. */
  lemma CancellationCanLose(limit: nat)
    requires limit >= 1
    ensures exists es :: CanRun(New(limit), es) &&
              var h := Exec(New(limit), es).h;
              h.ended && h.q.lost == [] && h.failed == [] && h.got == [[7]] && h.written == []
  {
    var es, s := Starts(limit);
    es, s := ByteIsRead(limit, es, s, 7);
    assert [] + [[7]] == [[7]];
    es, s := CancelledEnds(limit, es, s);
  }

  lemma CancelReachesReader(limit: nat, es: seq<Event>, s: Loop) returns (es': seq<Event>, s': Loop)
    requires Leads(limit, es, s) && s.turn.Nobody? && s.h.r.Reading? && s.h.w.Notified? && !s.h.cancelled && !s.h.ended
    ensures Leads(limit, es', s') && s'.turn.Nobody?
    ensures s'.h == s.h.(cancelled := true, r := F.ReadDone(F.ReadCancelled), q := Close(s.h.q))
  {
    es', s' := Then(limit, es, s, Step(F.Cancel));
    es', s' := Then(limit, es', s', Step(F.CancelRead));
  }

  lemma CancelledEnds(limit: nat, es: seq<Event>, s: Loop) returns (es': seq<Event>, s': Loop)
    requires Leads(limit, es, s) && s.turn.Nobody? && s.h.r.Reading? && s.h.w.Notified? && !s.h.cancelled && !s.h.ended
    ensures Leads(limit, es', s') && s'.h.ended
    ensures s'.h.got == s.h.got && s'.h.written == s.h.written && s'.h.failed == s.h.failed && s'.h.q.lost == s.h.q.lost
  {
    es', s' := CancelReachesReader(limit, es, s);
    es', s' := Then(limit, es', s', Step(F.CancelWrite));
    es', s' := Then(limit, es', s', Step(F.Return));
  }

  // A limit that is not safe: one burst can overflow the queue.

  function Feeds(n: nat): seq<Event>
  {
    if n == 0 then [] else [Feed([7])] + Feeds(n - 1)
  }

  lemma {:induction false} FeedsFill(s: Loop, n: nat)
    requires s.turn.Nobody? && !s.eof && !s.paused && |s.buffer| + n <= 2 * s.limit
    ensures CanRun(s, Feeds(n))
    ensures var s' := Exec(s, Feeds(n)); s' == s.(buffer := s'.buffer) && |s'.buffer| == |s.buffer| + n
    decreases n
  {
    if n == 0 {
    } else {
      FeedsFill(Next(s, Feed([7])), n - 1);
      assert Feeds(n)[1..] == Feeds(n - 1);
    }
  }

  function ReadAll(buffer: Bytes): seq<Event>
    decreases |buffer|
  {
    if buffer == [] then [] else [Step(F.Read(Front(buffer)))] + ReadAll(Rest(buffer))
  }

  /** The writer has not started, so all that was read is queued or lost. */
  ghost predicate PilesUp(s: Loop)
  {
    && s.turn.ReaderRuns? && !s.eof
    && s.h.r.Reading? && s.h.w.WriteStart? && !s.h.cancelled && !s.h.ended && s.h.failed == []
    && !s.h.q.closed && s.h.q.max == F.MAX_CHUNKS
    && |s.h.q.items| + |s.h.q.lost| == |s.h.got| && |s.h.q.items| <= F.MAX_CHUNKS
  }

  lemma ReadPilesUp(s: Loop)
    requires PilesUp(s) && s.buffer != []
    ensures Enabled(s, Step(F.Read(Front(s.buffer))))
    ensures var s' := Next(s, Step(F.Read(Front(s.buffer))));
            PilesUp(s') && s'.buffer == Rest(s.buffer) && |s'.h.got| == |s.h.got| + 1
            && (s'.buffer == [] ==> !s'.paused) && s'.limit == s.limit
  {
  }

  lemma {:induction false} ReadsPileUp(s: Loop)
    requires PilesUp(s) && (s.buffer == [] ==> !s.paused)
    ensures CanRun(s, ReadAll(s.buffer))
    ensures var s' := Exec(s, ReadAll(s.buffer));
            PilesUp(s') && s'.buffer == [] && !s'.paused && s'.limit == s.limit
            && |s'.h.got| * READ_SIZE >= |s.h.got| * READ_SIZE + |s.buffer|
    decreases |s.buffer|
  {
    if s.buffer == [] {
    } else {
      ReadPilesUp(s);
      ReadsPileUp(Next(s, Step(F.Read(Front(s.buffer)))));
      assert ReadAll(s.buffer)[1..] == ReadAll(Rest(s.buffer));
    }
  }

  /** The buffer is filled before the forwarder starts. */
  lemma BufferFills(limit: nat) returns (es: seq<Event>, s: Loop)
    ensures Leads(limit, es, s)
    ensures s == New(limit).(buffer := s.buffer, paused := true) && |s.buffer| == 2 * limit + RECV
  {
    FeedsFill(New(limit), 2 * limit);
    es, s := Feeds(2 * limit), Exec(New(limit), Feeds(2 * limit));
    var last: Bytes := seq(RECV, i => 7);
    es, s := Then(limit, es, s, Feed(last));
  }

  lemma BurstOverflows(limit: nat) returns (es: seq<Event>, s: Loop)
    requires !SafeLimit(limit)
    ensures Leads(limit, es, s) && PilesUp(s) && s.buffer == [] && !s.paused && s.h.q.lost != [] && s.limit == limit
  {
    es, s := BufferFills(limit);
    es, s := Then(limit, es, s, Step(F.StartRead));
    ReadsPileUp(s);
    var more := ReadAll(s.buffer);
    RunConcat(New(limit), es, more);
    es, s := es + more, Exec(s, more);
    assert |s.h.got| > F.MAX_CHUNKS;
  }

  function Steps(fs: seq<F.Event>): seq<Event>
  {
    if fs == [] then [] else [Step(fs[0])] + Steps(fs[1..])
  }

  /** The writer's turn is one uninterrupted run of its steps. */
  lemma {:induction false} TurnRuns(s: Loop, n: nat)
    requires s.turn.WriterRuns? && s.h.w.Running?
    ensures var es := Steps(F.TurnEvents(s.h, n));
            CanRun(s, es) && Exec(s, es) == s.(h := F.Turn(s.h, n), turn := Nobody)
    decreases |s.h.q.items|
  {
    var e := F.Iteration(s.h, n == 0);
    if e != F.Write(true) {
      assert F.TurnEvents(s.h, n) == [e] && Steps([e]) == [Step(e)] && [Step(e)][1..] == [];
    } else {
      var s' := Next(s, Step(e));
      TurnRuns(s', n - 1);
      assert F.TurnEvents(s.h, n)[1..] == F.TurnEvents(s'.h, n - 1);
      assert Steps(F.TurnEvents(s.h, n))[1..] == Steps(F.TurnEvents(s'.h, n - 1));
    }
  }

  lemma OverflowIsDrained(limit: nat) returns (es: seq<Event>, s: Loop)
    requires !SafeLimit(limit)
    ensures Leads(limit, es, s) && Idle(s) && s.h.q.lost != []
  {
    es, s := BurstOverflows(limit);
    es, s := Then(limit, es, s, SuspendReader);
    es, s := Then(limit, es, s, Step(F.StartWrite));
    var n := |s.h.q.items|;
    F.TurnDrains(s.h, n);
    TurnRuns(s, n);
    var turn := Steps(F.TurnEvents(s.h, n));
    RunConcat(New(limit), es, turn);
    es, s := es + turn, Exec(s, turn);
  }

  lemma CanLose(limit: nat) returns (es: seq<Event>)
    requires !SafeLimit(limit)
    ensures CanRun(New(limit), es)
    ensures var h := Exec(New(limit), es).h;
            F.RanToEof(h) && h.q.lost != [] && Flat(h.written) != Flat(h.got)
  {
    var s, h;
    es, s := OverflowIsDrained(limit);
    es, h := EndIsForwarded(limit, es, s);
    HopRuns(New(limit), es);
    F.ExecKeepsValid(F.NewHop(), HopEvents(es));
    F.EndedDeliversIff(h);
  }

  ghost predicate NeverLoses(limit: nat)
  {
    forall es :: CanRun(New(limit), es) && Exec(New(limit), es).h.failed == [] ==> Exec(New(limit), es).h.q.lost == []
  }

  /** A run that ends at end-of-file with less written than read. */
  ghost predicate LosesAtEof(limit: nat, es: seq<Event>)
  {
    CanRun(New(limit), es) && var h := Exec(New(limit), es).h; F.RanToEof(h) && Flat(h.written) != Flat(h.got)
  }

  /**
   * Under asyncio's schedule a forwarder loses data exactly for limits from 3964929 on, and then some run
   * loses data although it ends at end-of-file. The default limit is far below.
   */
  lemma BurstBoundExact(limit: nat)
    ensures NeverLoses(limit) <==> limit <= 3964928
    ensures (exists es :: LosesAtEof(limit, es)) <==> limit > 3964928
  {
    if SafeLimit(limit) {
      forall es | CanRun(New(limit), es)
        ensures Exec(New(limit), es).h.failed == [] ==> Exec(New(limit), es).h.q.lost == []
        ensures !LosesAtEof(limit, es)
      {
        NothingEvicted(limit, es);
      }
    } else {
      var es := CanLose(limit);
      assert LosesAtEof(limit, es);
    }
  }
}
