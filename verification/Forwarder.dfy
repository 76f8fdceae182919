// One call of `forward_data`: a reader task and a writer task joined by a queue of at most 1000 chunks.
module Forwarder {
  import opened Chunks
  import opened ProgressLog
  import opened QueueSpec
  import A = AtomicQueue

  const MAX_CHUNKS: nat := 1000

  datatype ReadEnd = Eof | ReadFailed | ReadCancelled
  datatype ReadPc = ReadStart | Reading | ReadDone(why: ReadEnd)
  datatype WriteEnd = Drained | WriteFailed | WriteCancelled
  /** `Running(woken)`: in a turn; `woken` until the first `get` after a wakeup has got past its `wait`. */
  datatype WritePc = WriteStart | Running(woken: bool) | Parked | Notified | WriteDone(how: WriteEnd)

  /**
   * `got`: the non-empty results of `reader.read`. `written`: the arguments of the `writer.write`
   * calls that returned. `failed`: the chunk whose `write` raised. `cancelled`: the task of
   * `forward_data` was cancelled, which `gather` passes on to both tasks. `ended`: `forward_data`
   * returned.
   */
  datatype Hop = Hop(r: ReadPc, w: WritePc, q: Queue<Bytes>,
                     got: seq<Bytes>, written: seq<Bytes>, failed: seq<Bytes>,
                     total: nat, log: seq<nat>, cancelled: bool, ended: bool)

  datatype Event = StartRead | StartWrite
                 | Read(data: Bytes) | EndRead(why: ReadEnd) | CancelRead
                 | Write(ok: bool) | Park | Resume | Finish | CancelWrite
                 | Cancel | Return

  function NewHop(): Hop
  {
    Hop(ReadStart, WriteStart, New(MAX_CHUNKS), [], [], [], 0, [], false, false)
  }

  /**
   * What may happen next. Between two iterations of a task any other task may run, which allows every
   * schedule of asyncio. `Cancel`: the handler cancels `forward_data`, which it does while every other
   * task is suspended; so a reader, a starting or a woken task then does nothing else first.
   */
  predicate Enabled(h: Hop, e: Event)
  {
    match e
    case StartRead => h.r.ReadStart? && !h.cancelled
    case StartWrite => h.w.WriteStart? && !h.cancelled
    case Read(data) => h.r.Reading? && !h.cancelled && 1 <= |data| <= READ_SIZE
    case EndRead(why) => h.r.Reading? && !h.cancelled && !why.ReadCancelled?
    case CancelRead => h.cancelled && !h.r.ReadDone?
    case Write(_) => h.w.Running? && h.q.items != []
    case Park => h.w.Running? && h.q.items == [] && !h.q.closed
    case Finish => h.w.Running? && h.q.items == [] && h.q.closed
    case Resume => h.w.Notified? && !h.cancelled
    case CancelWrite => h.cancelled && (h.w.WriteStart? || h.w.Parked? || h.w.Notified?)
    case Cancel => !h.cancelled && !h.ended && !h.w.Running?
    case Return => h.r.ReadDone? && h.w.WriteDone? && !h.ended
  }

  /** `notify` and `notify_all`: the only task that can wait here is the writer task. */
  function Wake(w: WritePc): WritePc
  {
    if w.Parked? then Notified else w
  }

  function CloseBy(h: Hop, why: ReadEnd): Hop
  {
    h.(r := ReadDone(why), q := Close(h.q), w := Wake(h.w))
  }

  function Next(h: Hop, e: Event): Hop
    requires Enabled(h, e)
  {
    match e
    case StartRead => h.(r := Reading)
    case StartWrite => h.(w := Running(false))
    case Read(data) =>
      h.(got := h.got + [data], q := Put(h.q, data), w := if h.q.closed then h.w else Wake(h.w))
    case EndRead(why) => CloseBy(h, why)
    case CancelRead =>  // a task that has not started has no `finally` to run
      if h.r.ReadStart? then h.(r := ReadDone(ReadCancelled)) else CloseBy(h, ReadCancelled)
    case Write(true) =>
      var data := h.q.items[0];
      var total := h.total + |data|;
      h.(q := Take(h.q), written := h.written + [data], total := total,
         log := LogLine(h.log, total), w := Running(false))
    case Write(false) =>
      h.(q := Take(h.q), failed := h.failed + [h.q.items[0]], w := WriteDone(WriteFailed))
    case Park => h.(w := Parked)
    case Resume => h.(w := Running(true))
    case Finish => h.(w := WriteDone(Drained))
    case CancelWrite => h.(w := WriteDone(WriteCancelled))
    case Cancel => h.(cancelled := true)
    case Return => h.(ended := true)
  }

  predicate CanRun(h: Hop, es: seq<Event>)
    decreases |es|
  {
    es == [] || (Enabled(h, es[0]) && CanRun(Next(h, es[0]), es[1..]))
  }

  function Exec(h: Hop, es: seq<Event>): Hop
    requires CanRun(h, es)
    decreases |es|
  {
    if es == [] then h else Exec(Next(h, es[0]), es[1..])
  }

  // The invariant.

  ghost predicate ChunkSized(cs: seq<Bytes>)
  {
    forall i :: 0 <= i < |cs| ==> 1 <= |cs[i]| <= READ_SIZE
  }

  ghost predicate Valid(h: Hop)
  {
    h.q.Valid() && h.q.max == MAX_CHUNKS && Books(h) && Counts(h) && Sizes(h) && Control(h) && Conserved(h)
  }

  ghost predicate Books(h: Hop)
  {
    && h.got == h.q.accepted
    && h.q.out == h.written + h.failed
  }

  ghost predicate Counts(h: Hop)
  {
    && h.total == Size(h.written)
    && h.log == LogOf(h.written)
  }

  ghost predicate Sizes(h: Hop)
  {
    ChunkSized(h.got) && ChunkSized(h.q.items) && ChunkSized(h.q.out) && ChunkSized(h.q.dropped)
  }

  /** Bytes read are delivered, pushed out of the queue, still queued, or in the write that raised. */
  ghost predicate Conserved(h: Hop)
  {
    Size(h.got) == Size(h.written) + Size(h.q.dropped) + Size(h.q.items) + Size(h.failed)
  }

  /** What the program counters say about the queue. */
  ghost predicate Control(h: Hop)
  {
    && (h.w == WriteDone(WriteFailed) <==> |h.failed| == 1) && |h.failed| <= 1
    && (h.q.closed ==> h.r.ReadDone?)
    && (h.r.ReadDone? && !h.q.closed ==> h.r.why.ReadCancelled?)
    && (h.r == ReadDone(ReadCancelled) || h.w == WriteDone(WriteCancelled) ==> h.cancelled)
    && (h.w.Parked? ==> !h.q.closed && h.q.items == [])
    && (h.w == WriteDone(Drained) ==> h.q.closed && h.q.items == [])
    && (h.ended ==> h.r.ReadDone? && h.w.WriteDone?)
    && (h.cancelled ==> !h.w.Running?)
  }

  lemma NextKeepsBooks(h: Hop, e: Event)
    requires Books(h) && Control(h) && Enabled(h, e)
    ensures Books(Next(h, e))
  {
  }

  lemma NextKeepsCounts(h: Hop, e: Event)
    requires Counts(h) && Enabled(h, e)
    ensures Counts(Next(h, e))
  {
    match e
    case Write(_) =>
      FlatSnoc(h.written, h.q.items[0]);
      LogOfSnoc(h.written, h.q.items[0]);
    case _ =>
  }

  lemma PutKeepsSizes(q: Queue<Bytes>, data: Bytes)
    requires ChunkSized(q.items) && ChunkSized(q.dropped) && 1 <= |data| <= READ_SIZE
    ensures ChunkSized(Put(q, data).items) && ChunkSized(Put(q, data).dropped) && Put(q, data).out == q.out
  {
  }

  lemma TakeKeepsSizes(q: Queue<Bytes>)
    requires ChunkSized(q.items) && ChunkSized(q.out) && q.items != []
    ensures ChunkSized(Take(q).items) && ChunkSized(Take(q).out)
  {
  }

  lemma NextKeepsSizes(h: Hop, e: Event)
    requires Sizes(h) && Enabled(h, e)
    ensures Sizes(Next(h, e))
  {
    match e
    case Read(data) => PutKeepsSizes(h.q, data);
    case Write(_) => TakeKeepsSizes(h.q);
    case _ =>
  }

  lemma NextKeepsControl(h: Hop, e: Event)
    requires Control(h) && Enabled(h, e)
    ensures Control(Next(h, e))
  {
  }

  lemma NextKeepsQueue(h: Hop, e: Event)
    requires h.q.Valid() && Enabled(h, e)
    ensures Next(h, e).q.Valid() && Next(h, e).q.max == h.q.max
  {
    var q := Next(h, e).q;
    match e {
      case Read(data) =>
        assert q == Put(h.q, data);
        PutKeepsValid(h.q, data);
      case Write(_) =>
        assert q == Take(h.q);
        TakeKeepsValid(h.q);
      case _ =>
        assert q == h.q || q == Close(h.q);
        CloseKeepsValid(h.q);
    }
  }

  lemma PutConserves(q: Queue<Bytes>, data: Bytes)
    requires !q.closed
    ensures Size(Put(q, data).items) + Size(Put(q, data).dropped) == Size(q.items) + Size(q.dropped) + |data|
  {
    var longer := q.items + [data];
    FlatSnoc(q.items, data);
    FlatHead(longer);
    FlatSnoc(q.dropped, longer[0]);
  }

  lemma ReadConserves(h: Hop, data: Bytes)
    requires Control(h) && Enabled(h, Read(data)) && Conserved(h)
    ensures Conserved(Next(h, Read(data)))
  {
    FlatSnoc(h.got, data);
    PutConserves(h.q, data);
  }

  lemma WriteConserves(h: Hop, ok: bool)
    requires Enabled(h, Write(ok)) && Conserved(h)
    ensures Conserved(Next(h, Write(ok)))
  {
    FlatHead(h.q.items);
    FlatSnoc(h.written, h.q.items[0]);
    FlatSnoc(h.failed, h.q.items[0]);
  }

  lemma NextConserves(h: Hop, e: Event)
    requires Control(h) && Enabled(h, e) && Conserved(h)
    ensures Conserved(Next(h, e))
  {
    match e
    case Read(data) => ReadConserves(h, data);
    case Write(ok) => WriteConserves(h, ok);
    case _ =>
  }

  lemma NextKeepsValid(h: Hop, e: Event)
    requires Valid(h) && Enabled(h, e)
    ensures Valid(Next(h, e))
  {
    NextKeepsBooks(h, e);
    NextKeepsCounts(h, e);
    NextKeepsSizes(h, e);
    NextKeepsControl(h, e);
    NextKeepsQueue(h, e);
    NextConserves(h, e);
  }

  lemma {:induction false} ExecKeepsControl(h: Hop, es: seq<Event>)
    requires Control(h) && CanRun(h, es)
    ensures Control(Exec(h, es))
    decreases |es|
  {
    if es == [] {
    } else {
      NextKeepsControl(h, es[0]);
      ExecKeepsControl(Next(h, es[0]), es[1..]);
    }
  }

  lemma {:induction false} ExecKeepsValid(h: Hop, es: seq<Event>)
    requires Valid(h) && CanRun(h, es)
    ensures Valid(Exec(h, es))
    decreases |es|
  {
    if es == [] {
    } else {
      NextKeepsValid(h, es[0]);
      ExecKeepsValid(Next(h, es[0]), es[1..]);
    }
  }

  lemma {:induction false} RunConcat(h: Hop, a: seq<Event>, b: seq<Event>)
    requires CanRun(h, a) && CanRun(Exec(h, a), b)
    ensures CanRun(h, a + b) && Exec(h, a + b) == Exec(Exec(h, a), b)
    decreases |a|
  {
    if a == [] {
      assert a + b == b;
    } else {
      RunConcat(Next(h, a[0]), a[1..], b);
      assert (a + b)[1..] == a[1..] + b;
    }
  }

  /** A run can be stopped after `k` steps, and its next step is then enabled. */
  lemma RunPrefix(h: Hop, es: seq<Event>, k: nat)
    requires CanRun(h, es) && k <= |es|
    ensures CanRun(h, es[..k]) && CanRun(Exec(h, es[..k]), es[k..])
    ensures Exec(h, es) == Exec(Exec(h, es[..k]), es[k..])
    ensures k < |es| ==>
              && Enabled(Exec(h, es[..k]), es[k]) && CanRun(h, es[..k + 1])
              && Exec(h, es[..k + 1]) == Next(Exec(h, es[..k]), es[k])
    decreases |es|
  {
    if k == 0 {
      assert es[..0] == [] && es[0..] == es;
      if es != [] { assert es[..1] == [es[0]] && [es[0]][1..] == []; }
    } else {
      RunPrefix(Next(h, es[0]), es[1..], k - 1);
      assert es[..k][1..] == es[1..][..k - 1] && es[k..] == es[1..][k - 1..];
      if k < |es| { assert es[..k + 1][1..] == es[1..][..k]; }
    }
  }

  /** Chunks are only ever added to what was read, and none after the reader's end. */
  lemma {:induction false} GotGrows(h: Hop, es: seq<Event>)
    requires CanRun(h, es)
    ensures h.got <= Exec(h, es).got
    ensures h.r.ReadDone? ==> Exec(h, es).got == h.got
    decreases |es|
  {
    if es == [] {
    } else {
      GotGrows(Next(h, es[0]), es[1..]);
    }
  }

  lemma {:induction false} CancelIsKept(h: Hop, es: seq<Event>)
    requires CanRun(h, es) && !Exec(h, es).cancelled
    ensures !h.cancelled && Cancel !in es
    decreases |es|
  {
    if es == [] {
    } else {
      CancelIsKept(Next(h, es[0]), es[1..]);
    }
  }

  // Delivery.

  /** `put` inside `forward_data` never refuses: every chunk that was read entered the queue. */
  lemma PutNeverRefuses(es: seq<Event>)
    requires CanRun(NewHop(), es)
    ensures var h := Exec(NewHop(), es);
            h.q.accepted == h.got && (h.r.Reading? ==> !h.q.closed)
  {
    ExecKeepsValid(NewHop(), es);
  }

  /** In every run the bytes read are written, evicted, queued, or in the one write that raised. */
  lemma HopConserves(es: seq<Event>)
    requires CanRun(NewHop(), es)
    ensures Conserved(Exec(NewHop(), es))
  {
    ExecKeepsValid(NewHop(), es);
  }

  /** Without eviction the chunks written are the first chunks read, whatever ended the two tasks. */
  lemma PrefixWithoutLoss(h: Hop)
    requires Valid(h) && h.q.lost == []
    ensures h.written <= h.got
    ensures Flat(h.written) <= Flat(h.got)
    ensures h.w == WriteDone(Drained) ==> h.written == h.got
  {
    assert h.q.out <= h.got;
    assert h.written <= h.q.out;
    FlatPrefix(h.written, h.got);
  }

  lemma LossIsVisible(h: Hop)
    requires Valid(h)
    ensures Size(h.q.dropped) == 0 <==> h.q.lost == []
    ensures Size(h.q.items) == 0 <==> h.q.items == []
    ensures Size(h.failed) == 0 <==> h.failed == []
  {
    if h.q.dropped != [] { FlatHead(h.q.dropped); }
    if h.q.items != [] { FlatHead(h.q.items); }
    if h.failed != [] {
      FlatHead(h.failed);
      assert h.q.out[|h.written|] == h.failed[0];
    }
  }

  /** Some read of the run finds 1000 chunks queued. */
  predicate Overflows(h: Hop, es: seq<Event>)
    requires CanRun(h, es)
    decreases |es|
  {
    es != [] && ((es[0].Read? && |h.q.items| >= MAX_CHUNKS) || Overflows(Next(h, es[0]), es[1..]))
  }

  lemma LosesIffFull(h: Hop, e: Event)
    requires Valid(h) && Enabled(h, e)
    ensures |Next(h, e).q.lost| > |h.q.lost| <==> e.Read? && |h.q.items| >= MAX_CHUNKS
    ensures |Next(h, e).q.lost| >= |h.q.lost|
  {
  }

  lemma EndsDrained(h: Hop)
    requires Control(h) && h.ended && !h.cancelled && h.failed == []
    ensures h.w == WriteDone(Drained) && h.q.items == [] && h.q.closed
  {
    match h.w
    case WriteDone(how) => assert how.Drained? || how.WriteFailed? || how.WriteCancelled?;
  }

  /** Loss comes from exactly one place: reading a chunk while 1000 chunks are queued. */
  lemma {:induction false} LosesIffOverflows(h: Hop, es: seq<Event>)
    requires Valid(h) && CanRun(h, es)
    ensures |Exec(h, es).q.lost| >= |h.q.lost|
    ensures |Exec(h, es).q.lost| > |h.q.lost| <==> Overflows(h, es)
    decreases |es|
  {
    if es == [] {
    } else {
      NextKeepsValid(h, es[0]);
      LosesIffFull(h, es[0]);
      LosesIffOverflows(Next(h, es[0]), es[1..]);
    }
  }

  // Exactly which runs deliver everything.

  /** A step that costs no data: no eviction, no write that raises, no cancellation over queued chunks. */
  predicate CleanStep(h: Hop, e: Event)
  {
    match e
    case Read(_) => |h.q.items| < MAX_CHUNKS
    case Write(ok) => ok
    case Cancel => h.q.items == []
    case _ => true
  }

  predicate Clean(h: Hop, es: seq<Event>)
    requires CanRun(h, es)
    decreases |es|
  {
    es == [] || (CleanStep(h, es[0]) && Clean(Next(h, es[0]), es[1..]))
  }

  /** Some chunk that was read will never be written. */
  predicate Spoiled(h: Hop)
  {
    h.q.lost != [] || h.failed != [] || (h.cancelled && h.q.items != [])
  }

  lemma SpoiledIff(h: Hop, e: Event)
    requires Valid(h) && Enabled(h, e)
    ensures Spoiled(Next(h, e)) <==> Spoiled(h) || !CleanStep(h, e)
  {
  }

  lemma {:induction false} SpoiledIffUnclean(h: Hop, es: seq<Event>)
    requires Valid(h) && CanRun(h, es)
    ensures Spoiled(Exec(h, es)) <==> Spoiled(h) || !Clean(h, es)
    decreases |es|
  {
    if es == [] {
    } else {
      NextKeepsValid(h, es[0]);
      SpoiledIff(h, es[0]);
      SpoiledIffUnclean(Next(h, es[0]), es[1..]);
    }
  }

  lemma UnspoiledEnds(h: Hop)
    requires Control(h) && h.ended && !Spoiled(h)
    ensures h.q.items == [] && h.failed == []
  {
    var how := h.w.how;
    assert how.Drained? || how.WriteFailed? || how.WriteCancelled?;
  }

  lemma EndedDeliversIff(h: Hop)
    requires Valid(h) && h.ended
    ensures Size(h.written) <= Size(h.got)
    ensures Size(h.written) == Size(h.got) <==> !Spoiled(h)
    ensures h.written == h.got <==> !Spoiled(h)
  {
    LossIsVisible(h);
    if Spoiled(h) {
      assert Size(h.written) < Size(h.got);
    } else {
      UnspoiledEnds(h);
      assert h.q.out == h.written == h.got;
    }
  }

  /**
   * A finished `forward_data` has written everything it read if and only if no chunk was read while
   * 1000 were queued, no write raised, and no cancellation was issued while chunks were queued.
   */
  lemma DeliversIffClean(es: seq<Event>)
    requires CanRun(NewHop(), es) && Exec(NewHop(), es).ended
    ensures var h := Exec(NewHop(), es);
            && (h.written == h.got <==> Clean(NewHop(), es))
            && Size(h.written) <= Size(h.got) && (Size(h.written) == Size(h.got) <==> Clean(NewHop(), es))
  {
    ExecKeepsValid(NewHop(), es);
    SpoiledIffUnclean(NewHop(), es);
    EndedDeliversIff(Exec(NewHop(), es));
  }

  /** Ended at end-of-file, not cancelled, with no write that raised. */
  predicate RanToEof(h: Hop)
  {
    h.ended && h.r == ReadDone(Eof) && !h.cancelled && h.failed == []
  }

  lemma CleanIffNoOverflow(es: seq<Event>)
    requires CanRun(NewHop(), es) && RanToEof(Exec(NewHop(), es))
    ensures Clean(NewHop(), es) <==> !Overflows(NewHop(), es)
  {
    SpoiledIffUnclean(NewHop(), es);
    LosesIffOverflows(NewHop(), es);
  }

  // The calls a run makes on its queue.

  function CallsOf(h: Hop, e: Event): seq<Op<Bytes>>
  {
    match e
    case Read(data) => [OpPut(data)]
    case EndRead(_) => [OpClose]
    case CancelRead => if h.r.ReadStart? then [] else [OpClose]
    case Write(_) => [OpGet]
    case _ => []
  }

  function Calls(h: Hop, es: seq<Event>): seq<Op<Bytes>>
    requires CanRun(h, es)
    decreases |es|
  {
    if es == [] then [] else CallsOf(h, es[0]) + Calls(Next(h, es[0]), es[1..])
  }

  lemma {:induction false} QueueFollowsCalls(h: Hop, es: seq<Event>)
    requires CanRun(h, es)
    ensures Exec(h, es).q == Continue(h.q, Calls(h, es))
    decreases |es|
  {
    if es == [] {
    } else {
      var h', now := Next(h, es[0]), CallsOf(h, es[0]);
      QueueFollowsCalls(h', es[1..]);
      var later := Calls(h', es[1..]);
      if now == [] {
        assert now + later == later;
      } else {
        assert now + later == [now[0]] + later && (now + later)[1..] == later;
      }
    }
  }

  /**
   * Which chunks `forward_data` loses: chunk `i` is lost if and only if at some point chunk `i + 1000`
   * had been read while chunk `i` had not been taken by the writer.
   */
  lemma ChunkLossExact(es: seq<Event>, i: nat)
    requires CanRun(NewHop(), es)
    ensures var calls := Calls(NewHop(), es);
            && Exec(NewHop(), es).q == Run(calls, MAX_CHUNKS)
            && (i in Exec(NewHop(), es).q.lost <==>
                  exists k :: 0 <= k <= |calls| && Overtaken(calls[..k], MAX_CHUNKS, i))
  {
    var calls := Calls(NewHop(), es);
    QueueFollowsCalls(NewHop(), es);
    RunIsContinue([], calls, MAX_CHUNKS);
    assert [] + calls == calls;
    LossExact(calls, MAX_CHUNKS, i);
  }

  /** `written` consists of items of `got`, at strictly increasing positions: nothing is made up or reordered. */
  ghost predicate Selects(positions: seq<int>, got: seq<Bytes>, written: seq<Bytes>)
  {
    && |written| <= |positions|
    && (forall j :: 0 <= j < |written| ==> 0 <= positions[j] < |got| && written[j] == got[positions[j]])
    && (forall j, k :: 0 <= j < k < |written| ==> positions[j] < positions[k])
  }

  lemma OutIsSelected(h: Hop)
    requires h.q.Ledger() && Books(h)
    ensures Selects(h.q.pops, h.got, h.written)
  {
    assert forall j :: 0 <= j < |h.written| ==> h.written[j] == h.q.out[j];
  }

  /** Whatever is lost, raised or cancelled, the chunks written are chunks that were read, in that order. */
  lemma WritesAreReads(es: seq<Event>)
    requires CanRun(NewHop(), es)
    ensures var h := Exec(NewHop(), es); Selects(h.q.pops, h.got, h.written)
  {
    ExecKeepsValid(NewHop(), es);
    ChunkLossExact(es, 0);
    var calls, h := Calls(NewHop(), es), Exec(NewHop(), es);
    RunIsValid(calls, MAX_CHUNKS);
    OutIsSelected(h);
  }

  // Draining and termination.

  /** The reader has ended or both tasks are being cancelled: nothing more comes in. */
  predicate Settling(h: Hop)
  {
    h.cancelled || h.r.ReadDone?
  }

  function Rank(h: Hop): nat
  {
    (if h.ended then 0 else 1) +
    (if h.cancelled then 0 else 1) +
    (if h.r.ReadDone? then 0 else 1) +
    (match h.w
     case WriteDone(_) => 0
     case Parked => 1
     case Running(_) => |h.q.items| + (if h.q.closed then 1 else 2)
     case WriteStart => if h.cancelled then 1 else |h.q.items| + 2
     case Notified => if h.cancelled then 1 else |h.q.items| + 2)
  }

  lemma SettlingStep(h: Hop, e: Event)
    requires Control(h) && Settling(h) && Enabled(h, e)
    ensures Settling(Next(h, e)) && Rank(Next(h, e)) < Rank(h)
    ensures Next(h, e).got == h.got && Next(h, e).q.lost == h.q.lost
  {
  }

  function Handled(h: Hop): seq<Bytes>
  {
    h.written + h.failed + h.q.items
  }

  lemma MoveHead(a: seq<Bytes>, b: seq<Bytes>)
    requires b != []
    ensures (a + [b[0]]) + b[1..] == a + b
  {
  }

  lemma SettlingKeepsChunks(h: Hop, e: Event)
    requires Control(h) && Settling(h) && Enabled(h, e)
    ensures Handled(Next(h, e)) == Handled(h)
  {
  }

  /**
   * Once nothing more comes in, every run is shorter than `Rank(h)`, at most one step per queued chunk
   * plus four; no chunk is lost or reordered on the way; and a run that cannot go on has ended
   * `forward_data`.
   */
  lemma {:induction false} Terminates(h: Hop, es: seq<Event>)
    requires Control(h) && Settling(h) && CanRun(h, es)
    ensures |es| <= Rank(h) <= |h.q.items| + 4
    ensures Handled(Exec(h, es)) == Handled(h) && Exec(h, es).q.lost == h.q.lost
    ensures Exec(h, es).ended || exists e :: Enabled(Exec(h, es), e)
    decreases |es|
  {
    if es == [] {
      if !h.ended { NeverStuck(h); }
    } else {
      SettlingStep(h, es[0]);
      SettlingKeepsChunks(h, es[0]);
      NextKeepsControl(h, es[0]);
      Terminates(Next(h, es[0]), es[1..]);
    }
  }

  /** A forwarder that has not returned can always go on without being cancelled. */
  lemma NeverStuck(h: Hop)
    requires Control(h) && !h.ended
    ensures exists e :: Enabled(h, e) && !e.Cancel?
  {
    var e :=
      if !h.r.ReadDone? then (if h.cancelled then CancelRead else if h.r.ReadStart? then StartRead else EndRead(Eof))
      else match h.w
        case WriteStart => if h.cancelled then CancelWrite else StartWrite
        case Parked => CancelWrite
        case Notified => if h.cancelled then CancelWrite else Resume
        case Running(_) => if h.q.items != [] then Write(true) else if h.q.closed then Finish else Park
        case WriteDone(_) => Return;
    assert Enabled(h, e) && !e.Cancel?;
  }

  /**
   * Draining: when the reader has ended and the writer later stops because `get` returned None, it has
   * written exactly what was queued, in order.
   */
  lemma DrainsExactly(h: Hop, es: seq<Event>)
    requires Control(h) && h.r.ReadDone? && !h.w.WriteDone? && CanRun(h, es)
    requires Exec(h, es).w == WriteDone(Drained)
    ensures Exec(h, es).written == h.written + h.q.items
  {
    Terminates(h, es);
    ExecKeepsControl(h, es);
    var h' := Exec(h, es);
    assert h.failed == [] && h'.failed == [] && h'.q.items == [];
    assert Handled(h') == h'.written && Handled(h) == h.written + h.q.items;
  }

  // One turn of the writer task: from a start or a wakeup to its next suspension or its end.

  /** One iteration of the writer's loop; `raises`: the call of `write` raises. */
  function Iteration(h: Hop, raises: bool): Event
  {
    if h.q.items != [] then Write(!raises) else if h.q.closed then Finish else Park
  }

  /** The turn in which `write` raises on its call number `n` (from 0), if there is such a call. */
  function Turn(h: Hop, n: nat): Hop
    requires h.w.Running?
    decreases |h.q.items|
  {
    var e := Iteration(h, n == 0);
    if e != Write(true) then Next(h, e) else Turn(Next(h, e), n - 1)
  }

  function TurnEvents(h: Hop, n: nat): seq<Event>
    requires h.w.Running?
    decreases |h.q.items|
  {
    var e := Iteration(h, n == 0);
    [e] + if e != Write(true) then [] else TurnEvents(Next(h, e), n - 1)
  }

  /** A turn is a run of single steps, one per call of `get`, and no more calls than queued chunks plus one. */
  lemma {:induction false} TurnIsRun(h: Hop, n: nat)
    requires h.w.Running?
    ensures var es := TurnEvents(h, n);
            CanRun(h, es) && Exec(h, es) == Turn(h, n) && |es| <= |h.q.items| + 1
    decreases |h.q.items|
  {
    if h.q.items != [] && n != 0 {
      var h' := Next(h, Write(true));
      TurnIsRun(h', n - 1);
      assert TurnEvents(h, n)[1..] == TurnEvents(h', n - 1);
    }
  }

  /** A turn without a failing write empties the queue into the sink, then stops if the queue is closed. */
  lemma {:induction false} TurnDrains(h: Hop, n: nat)
    requires h.w.Running? && n >= |h.q.items|
    ensures var h' := Turn(h, n);
            && h'.q.items == [] && h'.written == h.written + h.q.items
            && h'.w == (if h.q.closed then WriteDone(Drained) else Parked)
            && h'.r == h.r && h'.got == h.got && h'.cancelled == h.cancelled && h'.ended == h.ended
            && h'.q.closed == h.q.closed && h'.q.max == h.q.max && h'.q.lost == h.q.lost && h'.failed == h.failed
            && |TurnEvents(h, n)| == |h.q.items| + 1
    decreases |h.q.items|
  {
    if h.q.items == [] {
    } else {
      TurnDrains(Next(h, Write(true)), n - 1);
      MoveHead(h.written, h.q.items);
    }
  }

  lemma LogFollowsWrites(es: seq<Event>)
    requires CanRun(NewHop(), es)
    ensures var h := Exec(NewHop(), es);
            && FitsTotal(h.log, h.total)
            && h.log == LogOf(h.written) && h.total == Size(h.written)
  {
    ExecKeepsValid(NewHop(), es);
    var h := Exec(NewHop(), es);
    forall i | 0 <= i < |h.written|
      ensures 1 <= |h.written[i]|
    {
      assert h.q.out[i] == h.written[i];
    }
    LogIncreases(h.written);
  }

  // Every run of a hop is a run of the condition-guarded queue.

  const READER: nat := 0
  const WRITER: nat := 1

  function QueueState(h: Hop): A.State<Bytes>
  {
    A.State(h.q, if h.w.Parked? then {WRITER} else {},
            if h.w.Notified? || h.w == Running(true) then {WRITER} else {})
  }

  /** The queue operation of a step, if it has one. */
  function LabelsOf(h: Hop, e: Event): seq<A.Label<Bytes>>
    requires Enabled(h, e)
  {
    match e
    case Read(data) => [A.PutBy(READER, data)]
    case EndRead(_) => [A.ClosedBy(READER)]
    case CancelRead => if h.r.ReadStart? then [] else [A.ClosedBy(READER)]
    case Write(_) => [A.GotBy(WRITER, Some(h.q.items[0]))]
    case Finish => [A.GotBy(WRITER, None)]
    case Park => [A.ParkedBy(WRITER)]
    case CancelWrite => if h.w.WriteStart? then [] else [A.CancelledBy(WRITER)]
    case _ => []
  }

  function Labels(h: Hop, es: seq<Event>): seq<A.Label<Bytes>>
    requires CanRun(h, es)
    decreases |es|
  {
    if es == [] then [] else LabelsOf(h, es[0]) + Labels(Next(h, es[0]), es[1..])
  }

  lemma StepIsAtomic(h: Hop, e: Event)
    requires Control(h) && Enabled(h, e)
    ensures var ls, a, b := LabelsOf(h, e), QueueState(h), QueueState(Next(h, e));
            |ls| <= 1 && if ls == [] then a == b else A.Step(a, ls[0], b)
  {
  }

  lemma AtomicSnoc(max: nat, ls: seq<A.Label<Bytes>>, a: A.State<Bytes>, l: A.Label<Bytes>, b: A.State<Bytes>)
    requires A.Reaches(max, ls, a) && A.Step(a, l, b)
    ensures A.Reaches(max, ls + [l], b)
  {
    assert (ls + [l])[..|ls|] == ls;
  }

  lemma StepContinuesAtomicRun(before: seq<A.Label<Bytes>>, h: Hop, e: Event)
    requires Control(h) && Enabled(h, e) && A.Reaches(MAX_CHUNKS, before, QueueState(h))
    ensures A.Reaches(MAX_CHUNKS, before + LabelsOf(h, e), QueueState(Next(h, e)))
  {
    var now := LabelsOf(h, e);
    StepIsAtomic(h, e);
    if now == [] {
      assert before + now == before;
    } else {
      assert now == [now[0]];
      AtomicSnoc(MAX_CHUNKS, before, QueueState(h), now[0], QueueState(Next(h, e)));
    }
  }

  lemma LabelsJoin(before: seq<A.Label<Bytes>>, h: Hop, es: seq<Event>)
    requires es != [] && CanRun(h, es)
    ensures (before + LabelsOf(h, es[0])) + Labels(Next(h, es[0]), es[1..]) == before + Labels(h, es)
  {
    Regroup(before, LabelsOf(h, es[0]), Labels(Next(h, es[0]), es[1..]));
  }

  lemma {:induction false} ContinuesAtomicRun(before: seq<A.Label<Bytes>>, h: Hop, es: seq<Event>)
    requires Control(h) && CanRun(h, es) && A.Reaches(MAX_CHUNKS, before, QueueState(h))
    ensures A.Reaches(MAX_CHUNKS, before + Labels(h, es), QueueState(Exec(h, es)))
    decreases |es|
  {
    if es == [] {
      assert before + [] == before;
    } else {
      StepContinuesAtomicRun(before, h, es[0]);
      NextKeepsControl(h, es[0]);
      ContinuesAtomicRun(before + LabelsOf(h, es[0]), Next(h, es[0]), es[1..]);
      LabelsJoin(before, h, es);
    }
  }

  /**
   * Every run of `forward_data`, cancellation included, is a run of the condition-guarded queue. So no
   * wakeup is lost: a parked writer waits on an open, empty queue.
   */
  lemma RunsOnAtomicQueue(es: seq<Event>)
    requires CanRun(NewHop(), es)
    ensures var h := Exec(NewHop(), es);
            A.Reaches(MAX_CHUNKS, Labels(NewHop(), es), QueueState(h)) && (h.w.Parked? ==> !h.q.closed && h.q.items == [])
  {
    ContinuesAtomicRun([], NewHop(), es);
    assert [] + Labels(NewHop(), es) == Labels(NewHop(), es);
    A.NoLostWakeup(MAX_CHUNKS, Labels(NewHop(), es), QueueState(Exec(NewHop(), es)));
  }
}
