// `forward_data` as it runs: the closure's variables and the states of its tasks are fields, and each
// method is what one task does between two suspension points.
module ForwarderTask {
  import opened Chunks
  import opened Forwarder
  import opened ProgressLog
  import opened CircularQueues
  import Spec = QueueSpec
  import A = AtomicQueue
  import H = Histogram

  /** What an iteration that got `r` makes of the other variables, given the queue after `get`. */
  function AfterGet(h: Hop, raises: bool, r: GetOutcome<Bytes>, q: Spec.Queue<Bytes>): Hop
  {
    match r
    case Waits => h.(q := q, w := Parked)
    case Ended => h.(q := q, w := WriteDone(Drained))
    case Item(data) =>
      if raises then h.(q := q, failed := h.failed + [data], w := WriteDone(WriteFailed))
      else h.(q := q, written := h.written + [data], total := h.total + |data|,
              log := LogLine(h.log, h.total + |data|), w := Running(false))
  }

  lemma GetIsIteration(h: Hop, raises: bool, r: GetOutcome<Bytes>, b: A.State<Bytes>)
    requires h.w.Running?
    requires match r
             case Item(x) => A.Step(QueueState(h), A.GotBy(WRITER, Some(x)), b)
             case Ended => A.Step(QueueState(h), A.GotBy(WRITER, None), b)
             case Waits => A.Step(QueueState(h), A.ParkedBy(WRITER), b)
    ensures var e := Iteration(h, raises);
            && Enabled(h, e) && Next(h, e) == AfterGet(h, raises, r, b.q) && b == QueueState(Next(h, e))
            && (Next(h, e).w.Running? <==> r.Item? && !raises)
  {
  }

  class ForwardData {
    const queue: CircularQueue<Bytes>
    var sink: seq<Bytes>
    var total_bytes: nat
    var log: seq<nat>
    var r: ReadPc
    var w: WritePc
    var cancelled: bool
    var ended: bool
    ghost var got: seq<Bytes>
    ghost var failed: seq<Bytes>

    ghost function State(): Hop
      reads this, queue
    {
      Hop(r, w, queue.ledger, got, sink, failed, total_bytes, log, cancelled, ended)
    }

    ghost predicate Valid()
      reads this, queue
    {
      && queue.Valid()
      && queue.State() == QueueState(State())
    }

    constructor ()
      ensures Valid() && State() == NewHop() && fresh(queue)
    {
      queue := new CircularQueue<Bytes>(MAX_CHUNKS);
      sink, total_bytes, log := [], 0, [];
      r, w, got, failed := ReadStart, WriteStart, [], [];
      cancelled, ended := false, false;
      new;
      assert queue.State() == QueueState(NewHop());
      assert State() == NewHop();
      assert queue.Valid();
    }

    /** The first step of `read_task`. */
    method StartReader()
      requires Valid() && Enabled(State(), StartRead)
      modifies this`r
      ensures Valid() && State() == Next(old(State()), StartRead)
    {
      r := Reading;
    }

    /** The first step of `write_task`. */
    method StartWriter()
      requires Valid() && Enabled(State(), StartWrite)
      modifies this`w
      ensures Valid() && State() == Next(old(State()), StartWrite)
    {
      w := Running(false);
    }

    /** `write_task` is scheduled after a notification. */
    method ResumeWriter()
      requires Valid() && Enabled(State(), Resume)
      modifies this`w
      ensures Valid() && State() == Next(old(State()), Resume)
    {
      w := Running(true);
    }

    /** The connection handler cancels the task of `forward_data`. */
    method CancelTask()
      requires Valid() && Enabled(State(), Cancel)
      modifies this`cancelled
      ensures Valid() && State() == Next(old(State()), Cancel)
    {
      cancelled := true;
    }

    /** The cancellation reaches `read_task`: nothing runs if it had not started, else its `finally` does. */
    method CancelReader()
      requires Valid() && Enabled(State(), CancelRead)
      modifies this, queue
      ensures Valid() && State() == Next(old(State()), CancelRead)
    {
      if !r.ReadStart? {
        queue.CloseQueue(READER);
        w := Wake(w);
      }
      r := ReadDone(ReadCancelled);
    }

    /** The cancellation reaches `write_task`, which may be inside `wait`. */
    method CancelWriter()
      requires Valid() && Enabled(State(), CancelWrite)
      modifies this, queue
      ensures Valid() && State() == Next(old(State()), CancelWrite)
    {
      if !w.WriteStart? {
        queue.CancelWait(WRITER);
      }
      w := WriteDone(WriteCancelled);
    }

    /** `gather` has both results. */
    method Finishes()
      requires Valid() && Enabled(State(), Return)
      modifies this`ended
      ensures Valid() && State() == Next(old(State()), Return)
    {
      ended := true;
    }

    /** `read_task` after `reader.read` returned a chunk. */
    method ReadChunk(data: Bytes, histogram: map<nat, nat>) returns (histogram': map<nat, nat>)
      requires Valid() && Enabled(State(), Read(data))
      modifies this, queue
      ensures Valid() && State() == Next(old(State()), Read(data))
      ensures histogram' == H.Count(histogram, |data|)
    {
      var bytes_read := |data|;
      histogram' := H.Count(histogram, bytes_read);
      queue.Put(READER, data);
      got := got + [data];
      if !queue.closed {
        w := Wake(w);
      }
    }

    /** `read_task` after an empty read or an exception: the `finally` block closes the queue. */
    method ReadEnds(why: ReadEnd)
      requires Valid() && Enabled(State(), EndRead(why))
      modifies this, queue
      ensures Valid() && State() == Next(old(State()), EndRead(why))
    {
      queue.CloseQueue(READER);
      r, w := ReadDone(why), Wake(w);
    }

    /** The rest of an iteration once `get` has returned, or has suspended the task. */
    method HandleItem(next: GetOutcome<Bytes>, raises: bool) returns (goesOn: bool)
      modifies this
      ensures State() == AfterGet(old(State()), raises, next, queue.ledger)
      ensures goesOn == (next.Item? && !raises)
    {
      match next {
        case Waits => w := Parked;
        case Ended => w := WriteDone(Drained);
        case Item(data) =>
          if raises {
            failed, w := failed + [data], WriteDone(WriteFailed);
          } else {
            sink := sink + [data];
            total_bytes := total_bytes + |data|;
            log := LogLine(log, total_bytes);
            w := Running(false);
          }
      }
      goesOn := next.Item? && !raises;
    }

    /** One iteration of the loop in `write_task`; `raises` says whether `writer.write` raises. */
    method WriteIteration(raises: bool) returns (goesOn: bool)
      requires Valid() && w.Running?
      modifies this, queue
      ensures Valid()
      ensures Enabled(old(State()), Iteration(old(State()), raises))
      ensures State() == Next(old(State()), Iteration(old(State()), raises))
      ensures goesOn == w.Running?
    {
      ghost var h := State();
      var next := queue.Get(WRITER);
      GetIsIteration(h, raises, next, queue.State());
      goesOn := HandleItem(next, raises);
    }

    /** `write_task` from a start or a wakeup; the call number `failAt` of `writer.write` raises. */
    method WriteTurn(failAt: nat) returns (gets: nat)
      requires Valid() && w.Running?
      modifies this, queue
      ensures Valid() && State() == Turn(old(State()), failAt)
      ensures gets == |TurnEvents(old(State()), failAt)|
    {
      gets := 0;
      var goesOn := true;
      ghost var start := State();
      while goesOn
        invariant Valid() && goesOn == w.Running?
        invariant start.w.Running?
        invariant TurnLeft(start, State(), failAt, gets, goesOn)
        decreases goesOn, |queue.ledger.items|
      {
        ghost var h := State();
        goesOn := WriteIteration(gets == failAt);
        gets := gets + 1;
        TurnGoesOn(start, h, failAt, gets - 1);
      }
    }
  }

  /** A started forwarder whose reader waits for data and whose writer waits for the queue. */
  ghost predicate Idle(h: Hop)
  {
    Valid(h) && AllWait(h)
  }

  predicate AllWait(h: Hop)
  {
    h.r.Reading? && h.w.Parked? && !h.cancelled && !h.ended && h.q.items == [] && !h.q.closed
  }

  /** The state after an event, a start or wakeup of the writer, and the writer's turn. */
  function AfterTurn(h: Hop, e: Event, e': Event, n: nat): Hop
    requires Enabled(h, e) && Enabled(Next(h, e), e') && e' in {StartWrite, Resume}
  {
    Turn(Next(Next(h, e), e'), n)
  }

  lemma TurnKeepsValid(h: Hop, e: Event, e': Event, n: nat)
    requires Valid(h) && Enabled(h, e) && Enabled(Next(h, e), e') && e' in {StartWrite, Resume}
    ensures Valid(AfterTurn(h, e, e', n))
  {
    NextKeepsValid(h, e);
    NextKeepsValid(Next(h, e), e');
    var h2 := Next(Next(h, e), e');
    TurnIsRun(h2, n);
    ExecKeepsValid(h2, TurnEvents(h2, n));
  }

  lemma StartLeadsToWait()
    ensures AllWait(AfterTurn(NewHop(), StartRead, StartWrite, 1))
    ensures AfterTurn(NewHop(), StartRead, StartWrite, 1).written == []
  {
    var h := Next(Next(NewHop(), StartRead), StartWrite);
    assert h == NewHop().(r := Reading, w := Running(false));
    TurnDrains(h, 1);
  }

  lemma StartLeadsToIdle()
    ensures Idle(AfterTurn(NewHop(), StartRead, StartWrite, 1))
    ensures AfterTurn(NewHop(), StartRead, StartWrite, 1).written == []
  {
    StartLeadsToWait();
    TurnKeepsValid(NewHop(), StartRead, StartWrite, 1);
  }

  lemma ChunkLeadsToIdle(h: Hop, data: Bytes)
    requires Idle(h) && 1 <= |data| <= READ_SIZE
    ensures Idle(AfterTurn(h, Read(data), Resume, 2))
    ensures AfterTurn(h, Read(data), Resume, 2).written == h.written + [data]
  {
    TurnKeepsValid(h, Read(data), Resume, 2);
    var h2 := Next(Next(h, Read(data)), Resume);
    assert h2.q.items == [data];
    TurnDrains(h2, 2);
  }

  lemma EndLeadsToReturn(h: Hop)
    requires Idle(h)
    ensures var h' := AfterTurn(h, EndRead(Eof), Resume, 1);
            Valid(h') && Enabled(h', Return) && h'.written == h.written
  {
    TurnKeepsValid(h, EndRead(Eof), Resume, 1);
    TurnDrains(Next(Next(h, EndRead(Eof)), Resume), 1);
  }

  method StartForwarding() returns (task: ForwardData)
    ensures fresh(task) && fresh(task.queue) && task.Valid()
    ensures Idle(task.State()) && task.sink == []
  {
    StartLeadsToIdle();
    task := new ForwardData();
    task.StartReader();
    task.StartWriter();
    var _ := task.WriteTurn(1);
  }

  method ForwardChunk(task: ForwardData, data: Bytes, histogram: map<nat, nat>) returns (histogram': map<nat, nat>)
    requires task.Valid() && Idle(task.State()) && 1 <= |data| <= READ_SIZE
    modifies task, task.queue
    ensures task.Valid() && Idle(task.State())
    ensures task.sink == old(task.sink) + [data] && histogram' == H.Count(histogram, |data|)
  {
    ChunkLeadsToIdle(task.State(), data);
    histogram' := task.ReadChunk(data, histogram);
    task.ResumeWriter();
    var _ := task.WriteTurn(2);
  }

  method EndForwarding(task: ForwardData)
    requires task.Valid() && Idle(task.State())
    modifies task, task.queue
    ensures task.Valid() && task.ended && task.sink == old(task.sink) && task.total_bytes == Size(task.sink)
  {
    EndLeadsToReturn(task.State());
    task.ReadEnds(Eof);
    task.ResumeWriter();
    var _ := task.WriteTurn(1);
    task.Finishes();
  }

  /** How many of the chunks have this size. */
  function SizeCount(chunks: seq<Bytes>, n: nat): nat
  {
    if chunks == [] then 0
    else SizeCount(chunks[..|chunks| - 1], n) + (if |chunks[|chunks| - 1]| == n then 1 else 0)
  }

  /** `after` counts every chunk once more than `before`, under its size. */
  ghost predicate CountsSizes(before: map<nat, nat>, after: map<nat, nat>, chunks: seq<Bytes>)
  {
    forall n :: H.Frequency(after, n) == H.Frequency(before, n) + SizeCount(chunks, n)
  }

  lemma CountsOneMore(before: map<nat, nat>, after: map<nat, nat>, chunks: seq<Bytes>, data: Bytes)
    requires CountsSizes(before, after, chunks)
    ensures CountsSizes(before, H.Count(after, |data|), chunks + [data])
  {
    assert (chunks + [data])[..|chunks|] == chunks;
  }

  /** A whole call of `forward_data`: all chunks come out before it returns, and each is counted once. */
  method ForwardAll(chunks: seq<Bytes>, histogram: map<nat, nat>) returns (task: ForwardData, histogram': map<nat, nat>)
    requires forall i :: 0 <= i < |chunks| ==> 1 <= |chunks[i]| <= READ_SIZE
    ensures task.Valid() && task.ended && task.sink == chunks && task.total_bytes == Size(chunks)
    ensures CountsSizes(histogram, histogram', chunks)
  {
    task := StartForwarding();
    histogram' := histogram;
    for i := 0 to |chunks|
      invariant fresh(task) && fresh(task.queue) && task.Valid() && Idle(task.State())
      invariant task.sink == chunks[..i]
      invariant CountsSizes(histogram, histogram', chunks[..i])
    {
      CountsOneMore(histogram, histogram', chunks[..i], chunks[i]);
      histogram' := ForwardChunk(task, chunks[i], histogram');
      assert chunks[..i + 1] == chunks[..i] + [chunks[i]];
    }
    assert chunks[..|chunks|] == chunks;
    EndForwarding(task);
  }

  /** After `gets` iterations of the turn from `start`, in state `h`. */
  ghost predicate TurnLeft(start: Hop, h: Hop, failAt: nat, gets: nat, goesOn: bool)
    requires start.w.Running? && (goesOn ==> h.w.Running?)
  {
    if goesOn then
      && gets <= failAt
      && Turn(h, failAt - gets) == Turn(start, failAt)
      && gets + |TurnEvents(h, failAt - gets)| == |TurnEvents(start, failAt)|
    else
      h == Turn(start, failAt) && gets == |TurnEvents(start, failAt)|
  }

  lemma TurnGoesOn(start: Hop, h: Hop, failAt: nat, gets: nat)
    requires start.w.Running? && h.w.Running? && TurnLeft(start, h, failAt, gets, true)
    ensures var h' := Next(h, Iteration(h, gets == failAt));
            TurnLeft(start, h', failAt, gets + 1, h'.w.Running?)
  {
  }
}
