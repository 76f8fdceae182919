// A proxy process with any number of connections, which share a connection counter and a histogram of
// read sizes.
module Histogram {
  /** One more read of `n` bytes; a size that was never read counts as 0. */
  function Count(histogram: map<nat, nat>, n: nat): map<nat, nat>
  {
    histogram[n := Frequency(histogram, n) + 1]
  }

  function Frequency(histogram: map<nat, nat>, n: nat): nat
  {
    if n in histogram then histogram[n] else 0
  }

  /** The sum of k * frequency over the keys 1..n. */
  function Bytes(histogram: map<nat, nat>, n: nat): nat
  {
    if n == 0 then 0 else Bytes(histogram, n - 1) + n * Frequency(histogram, n)
  }

  /** The sum of the frequencies over the keys 1..n. */
  function Reads(histogram: map<nat, nat>, n: nat): nat
  {
    if n == 0 then 0 else Reads(histogram, n - 1) + Frequency(histogram, n)
  }

  lemma {:induction false} Empty(n: nat)
    ensures Bytes(map[], n) == 0 && Reads(map[], n) == 0
  {
    if n == 0 {
    } else {
      Empty(n - 1);
    }
  }

  lemma {:induction false} CountAdds(histogram: map<nat, nat>, k: nat, n: nat)
    requires 1 <= k
    ensures Bytes(Count(histogram, k), n) == Bytes(histogram, n) + (if k <= n then k else 0)
    ensures Reads(Count(histogram, k), n) == Reads(histogram, n) + (if k <= n then 1 else 0)
  {
    if n == 0 {
    } else {
      CountAdds(histogram, k, n - 1);
      var f := Frequency(histogram, n);
      assert n * (f + 1) == n * f + n;
    }
  }
}

module Proxy {
  import opened Chunks
  import F = Forwarder
  import C = ConnectionHandler
  import H = Histogram

  datatype State = State(counter: nat, histogram: map<nat, nat>, conns: map<nat, C.Conn>)

  datatype Event = Accept | Step(id: nat, e: C.Event)

  function NewProxy(): State
  {
    State(0, map[], map[])
  }

  predicate Enabled(p: State, e: Event)
  {
    match e
    case Accept => true
    case Step(id, f) => id in p.conns && C.Enabled(p.conns[id], f)
  }

  /** The number of bytes that the event reads, 0 if it is not a read. */
  function ReadBytes(e: C.Event): nat
  {
    match e
    case Up(Read(data)) => |data|
    case Down(Read(data)) => |data|
    case _ => 0
  }

  function Next(p: State, e: Event): State
    requires Enabled(p, e)
  {
    match e
    case Accept => p.(counter := p.counter + 1, conns := p.conns[p.counter + 1 := C.NewConn()])
    case Step(id, f) =>
      p.(conns := p.conns[id := C.Next(p.conns[id], f)],
         histogram := if ReadBytes(f) > 0 then H.Count(p.histogram, ReadBytes(f)) else p.histogram)
  }

  predicate CanRun(p: State, es: seq<Event>)
    decreases |es|
  {
    es == [] || (Enabled(p, es[0]) && CanRun(Next(p, es[0]), es[1..]))
  }

  function Exec(p: State, es: seq<Event>): State
    requires CanRun(p, es)
    decreases |es|
  {
    if es == [] then p else Exec(Next(p, es[0]), es[1..])
  }

  // Sums over the connections 1..n, both directions each.

  function ReadBy(c: C.Conn): nat
  {
    Size(c.up.got) + Size(c.down.got)
  }

  function Accounted(h: F.Hop): nat
  {
    Size(h.written) + Size(h.q.dropped) + Size(h.q.items) + Size(h.failed)
  }

  function TotalRead(conns: map<nat, C.Conn>, n: nat): nat
  {
    if n == 0 then 0 else TotalRead(conns, n - 1) + (if n in conns then ReadBy(conns[n]) else 0)
  }

  function TotalReads(conns: map<nat, C.Conn>, n: nat): nat
  {
    if n == 0 then 0
    else TotalReads(conns, n - 1) + (if n in conns then |conns[n].up.got| + |conns[n].down.got| else 0)
  }

  function TotalAccounted(conns: map<nat, C.Conn>, n: nat): nat
  {
    if n == 0 then 0
    else TotalAccounted(conns, n - 1) + (if n in conns then Accounted(conns[n].up) + Accounted(conns[n].down) else 0)
  }

  lemma {:induction false} TotalsAfterUpdate(conns: map<nat, C.Conn>, id: nat, c: C.Conn, n: nat)
    ensures TotalRead(conns[id := c], n)
         == TotalRead(conns, n) + (if 1 <= id <= n then ReadBy(c) - (if id in conns then ReadBy(conns[id]) else 0) else 0)
    ensures TotalReads(conns[id := c], n)
         == TotalReads(conns, n) + (if 1 <= id <= n then |c.up.got| + |c.down.got|
              - (if id in conns then |conns[id].up.got| + |conns[id].down.got| else 0) else 0)
  {
    if n == 0 {
    } else {
      TotalsAfterUpdate(conns, id, c, n - 1);
    }
  }

  lemma StepReads(c: C.Conn, e: C.Event)
    requires C.Enabled(c, e)
    ensures ReadBytes(e) <= READ_SIZE
    ensures ReadBy(C.Next(c, e)) == ReadBy(c) + ReadBytes(e)
    ensures |C.Next(c, e).up.got| + |C.Next(c, e).down.got|
         == |c.up.got| + |c.down.got| + (if ReadBytes(e) > 0 then 1 else 0)
  {
  }

  /** The ids in use are exactly 1..counter. */
  ghost predicate Numbered(p: State)
  {
    forall id :: id in p.conns <==> 1 <= id <= p.counter
  }

  ghost predicate Counted(p: State)
  {
    && (forall k :: k in p.histogram ==> 1 <= k <= READ_SIZE)
    && H.Bytes(p.histogram, READ_SIZE) == TotalRead(p.conns, p.counter)
    && H.Reads(p.histogram, READ_SIZE) == TotalReads(p.conns, p.counter)
  }

  ghost predicate Valid(p: State)
  {
    Numbered(p) && Counted(p) && AllValid(p.conns)
  }

  ghost predicate AllValid(conns: map<nat, C.Conn>)
  {
    forall id :: id in conns ==> C.Valid(conns[id])
  }

  lemma StepKeepsAllValid(conns: map<nat, C.Conn>, id: nat, e: C.Event)
    requires AllValid(conns) && id in conns && C.Enabled(conns[id], e)
    ensures AllValid(conns[id := C.Next(conns[id], e)])
  {
    C.NextKeepsControl(conns[id], e);
    C.NextKeepsHops(conns[id], e);
    assert C.Valid(C.Next(conns[id], e));
  }

  lemma NextKeepsCounted(p: State, e: Event)
    requires Numbered(p) && Counted(p) && Enabled(p, e)
    ensures Counted(Next(p, e))
  {
    match e {
      case Accept =>
        TotalsAfterUpdate(p.conns, p.counter + 1, C.NewConn(), p.counter);
      case Step(id, f) =>
        StepReads(p.conns[id], f);
        TotalsAfterUpdate(p.conns, id, C.Next(p.conns[id], f), p.counter);
        if ReadBytes(f) > 0 { H.CountAdds(p.histogram, ReadBytes(f), READ_SIZE); }
    }
  }

  lemma AcceptKeepsAllValid(conns: map<nat, C.Conn>, id: nat)
    requires AllValid(conns)
    ensures AllValid(conns[id := C.NewConn()])
  {
  }

  lemma NextKeepsNumbered(p: State, e: Event)
    requires Numbered(p) && Enabled(p, e)
    ensures Numbered(Next(p, e))
  {
  }

  lemma NextKeepsValid(p: State, e: Event)
    requires Valid(p) && Enabled(p, e)
    ensures Valid(Next(p, e))
  {
    NextKeepsCounted(p, e);
    NextKeepsNumbered(p, e);
    match e {
      case Accept => AcceptKeepsAllValid(p.conns, p.counter + 1);
      case Step(id, f) => StepKeepsAllValid(p.conns, id, f);
    }
  }

  lemma {:induction false} ExecKeepsValid(p: State, es: seq<Event>)
    requires Valid(p) && CanRun(p, es)
    ensures Valid(Exec(p, es))
    decreases |es|
  {
    if es == [] {
    } else {
      NextKeepsValid(p, es[0]);
      ExecKeepsValid(Next(p, es[0]), es[1..]);
    }
  }

  lemma {:induction false} ReadIsAccounted(conns: map<nat, C.Conn>, n: nat)
    requires AllValid(conns)
    ensures TotalRead(conns, n) == TotalAccounted(conns, n)
  {
    if n == 0 {
    } else {
      ReadIsAccounted(conns, n - 1);
    }
  }

  /**
   * Conservation over the whole proxy: at every moment the bytes counted by the histogram are the bytes
   * written, evicted, still queued (for ever, if the hop was cancelled) and in failed writes, over all
   * connections and both directions; the frequencies count the non-empty reads.
   */
  lemma HistogramConserves(es: seq<Event>)
    requires CanRun(NewProxy(), es)
    ensures var p := Exec(NewProxy(), es);
            && (forall k :: k in p.histogram ==> 1 <= k <= READ_SIZE)
            && H.Bytes(p.histogram, READ_SIZE) == TotalAccounted(p.conns, p.counter)
            && H.Reads(p.histogram, READ_SIZE) == TotalReads(p.conns, p.counter)
  {
    H.Empty(READ_SIZE);
    ExecKeepsValid(NewProxy(), es);
    ReadIsAccounted(Exec(NewProxy(), es).conns, Exec(NewProxy(), es).counter);
  }

  // Isolation.

  /** What one connection takes part in, out of the events of the whole proxy. */
  function Project(es: seq<Event>, id: nat): seq<C.Event>
  {
    if es == [] then []
    else (if es[0].Step? && es[0].id == id then [es[0].e] else []) + Project(es[1..], id)
  }

  function Accepts(es: seq<Event>): nat
  {
    if es == [] then 0 else (if es[0].Accept? then 1 else 0) + Accepts(es[1..])
  }

  lemma {:induction false} ProjectRuns(p: State, es: seq<Event>, id: nat)
    requires Numbered(p) && CanRun(p, es)
    requires id in Exec(p, es).conns
    ensures var c := if id in p.conns then p.conns[id] else C.NewConn();
            C.CanRun(c, Project(es, id)) && C.Exec(c, Project(es, id)) == Exec(p, es).conns[id]
    decreases |es|
  {
    if es == [] {
    } else {
      var p' := Next(p, es[0]);
      ProjectRuns(p', es[1..], id);
      if es[0].Step? && es[0].id == id {
        assert Project(es, id)[1..] == Project(es[1..], id);
      } else {
        assert Project(es, id) == Project(es[1..], id);
      }
    }
  }

  lemma {:induction false} CounterCountsAccepts(p: State, es: seq<Event>)
    requires Numbered(p) && CanRun(p, es)
    ensures Numbered(Exec(p, es)) && Exec(p, es).counter == p.counter + Accepts(es)
    decreases |es|
  {
    if es == [] {
    } else {
      CounterCountsAccepts(Next(p, es[0]), es[1..]);
    }
  }

  /** One connection as its own events alone make it. */
  ghost predicate RunsAlone(c: C.Conn, es: seq<C.Event>)
  {
    C.CanRun(C.NewConn(), es) && c == C.Exec(C.NewConn(), es)
  }

  /** What a direction writes are chunks that the same direction of the same connection read, in that order. */
  ghost predicate WritesOwnReads(c: C.Conn)
  {
    && F.Selects(c.up.q.pops, c.up.got, c.up.written)
    && F.Selects(c.down.q.pops, c.down.got, c.down.written)
  }

  lemma AloneWritesOwnReads(c: C.Conn, es: seq<C.Event>)
    requires RunsAlone(c, es)
    ensures WritesOwnReads(c)
  {
    C.TraceRuns(C.NewConn(), es, C.Upward);
    C.TraceRuns(C.NewConn(), es, C.Downward);
    F.WritesAreReads(C.Trace(C.NewConn(), es, C.Upward));
    F.WritesAreReads(C.Trace(C.NewConn(), es, C.Downward));
  }

  /**
   * Isolation: the ids are exactly 1..n for n accepted connections; each connection is in the state that
   * its own events alone lead to; and each direction has written only chunks that it read itself, in order.
   */
  lemma Isolation(es: seq<Event>)
    requires CanRun(NewProxy(), es)
    ensures var p := Exec(NewProxy(), es);
            && p.counter == Accepts(es)
            && (forall id :: id in p.conns <==> 1 <= id <= p.counter)
            && (forall id :: id in p.conns ==> RunsAlone(p.conns[id], Project(es, id)) && WritesOwnReads(p.conns[id]))
  {
    CounterCountsAccepts(NewProxy(), es);
    var p := Exec(NewProxy(), es);
    forall id | id in p.conns
      ensures RunsAlone(p.conns[id], Project(es, id)) && WritesOwnReads(p.conns[id])
    {
      ProjectRuns(NewProxy(), es, id);
      AloneWritesOwnReads(p.conns[id], Project(es, id));
    }
  }

  /** The proxy object: its methods change the counter, the histogram and one connection at a time. */
  class MigrationProxy {
    var connection_counter: nat
    var read_histogram: map<nat, nat>
    var connections: map<nat, C.Conn>

    function Current(): State
      reads this
    {
      State(connection_counter, read_histogram, connections)
    }

    constructor ()
      ensures Current() == NewProxy()
    {
      connection_counter, read_histogram, connections := 0, map[], map[];
    }

    /** The start of the connection handler. */
    method HandleNewConnection() returns (connection_id: nat)
      requires Numbered(Current())
      modifies this
      ensures Numbered(Current()) && Current() == Next(old(Current()), Accept)
      ensures connection_id == connection_counter && connection_id !in old(connections)
    {
      connection_counter := connection_counter + 1;
      connection_id := connection_counter;
      connections := connections[connection_id := C.NewConn()];
    }

    /** One step of one connection: the others stay as they are, and a read is counted under its size. */
    method Advance(id: nat, e: C.Event)
      requires Enabled(Current(), Step(id, e))
      modifies this
      ensures Current() == Next(old(Current()), Step(id, e))
      ensures connection_counter == old(connection_counter) && connections.Keys == old(connections.Keys)
      ensures forall other :: other in connections && other != id ==> connections[other] == old(connections)[other]
      ensures forall n :: H.Frequency(read_histogram, n)
                       == H.Frequency(old(read_histogram), n) + (if ReadBytes(e) == n > 0 then 1 else 0)
    {
      var bytes_read := ReadBytes(e);
      if bytes_read > 0 {
        read_histogram := H.Count(read_histogram, bytes_read);
      }
      connections := connections[id := C.Next(connections[id], e)];
    }
  }
}
