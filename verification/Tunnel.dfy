// Both proxies together: source socket, client process, TCP connection, server process, destination
// socket. Each link delivers bytes in order; end-of-file follows the writer's close and all its bytes.
module Tunnel {
  import opened Chunks
  import F = Forwarder
  import C = ConnectionHandler
  import L = EventLoop

  /** `srcOut`, `dstOut`: what the two QEMU processes have written into their sockets so far. */
  datatype State = State(client: C.Conn, server: C.Conn,
                         srcOut: Bytes, srcClosed: bool, dstOut: Bytes, dstClosed: bool)

  datatype Event = SrcWrites(data: Bytes) | SrcCloses | DstWrites(data: Bytes) | DstCloses
                 | Client(e: C.Event) | Server(e: C.Event)

  function NewTunnel(): State
  {
    State(C.NewConn(), C.NewConn(), [], false, [], false)
  }

  /** A hop's read returns the next bytes of its link, and end-of-file only at the link's end. */
  predicate Feeds(link: Bytes, closed: bool, h: F.Hop, e: F.Event)
  {
    match e
    case Read(data) => Flat(h.got) + data <= link
    case EndRead(Eof) => closed && Flat(h.got) == link
    case _ => true
  }

  predicate LinksAllow(s: State, e: Event)
  {
    match e
    case Client(Up(f)) => Feeds(s.srcOut, s.srcClosed, s.client.up, f)
    case Client(Down(f)) => Feeds(Flat(s.server.down.written), s.server.acceptedClosed, s.client.down, f)
    case Server(Up(f)) => Feeds(Flat(s.client.up.written), s.client.openedClosed, s.server.up, f)
    case Server(Down(f)) => Feeds(s.dstOut, s.dstClosed, s.server.down, f)
    case _ => true
  }

  predicate Enabled(s: State, e: Event)
  {
    && LinksAllow(s, e)
    && match e
       case SrcWrites(_) => !s.srcClosed
       case SrcCloses => !s.srcClosed
       case DstWrites(_) => !s.dstClosed
       case DstCloses => !s.dstClosed
       case Client(f) => C.Enabled(s.client, f)
       case Server(f) => C.Enabled(s.server, f)
  }

  function Next(s: State, e: Event): State
    requires Enabled(s, e)
  {
    match e
    case SrcWrites(data) => s.(srcOut := s.srcOut + data)
    case SrcCloses => s.(srcClosed := true)
    case DstWrites(data) => s.(dstOut := s.dstOut + data)
    case DstCloses => s.(dstClosed := true)
    case Client(f) => s.(client := C.Next(s.client, f))
    case Server(f) => s.(server := C.Next(s.server, f))
  }

  predicate CanRun(s: State, es: seq<Event>)
    decreases |es|
  {
    es == [] || (Enabled(s, es[0]) && CanRun(Next(s, es[0]), es[1..]))
  }

  function Exec(s: State, es: seq<Event>): State
    requires CanRun(s, es)
    decreases |es|
  {
    if es == [] then s else Exec(Next(s, es[0]), es[1..])
  }

  /** What a hop has read came from its link, and it saw end-of-file only after all of a closed link. */
  ghost predicate FedBy(h: F.Hop, link: Bytes, closed: bool)
  {
    && Flat(h.got) <= link
    && (h.r == F.ReadDone(F.Eof) ==> closed && Flat(h.got) == link)
  }

  ghost predicate Valid(s: State)
  {
    C.Valid(s.client) && C.Valid(s.server) && LinksFed(s)
  }

  ghost predicate LinksFed(s: State)
  {
    && FedBy(s.client.up, s.srcOut, s.srcClosed)
    && FedBy(s.server.up, Flat(s.client.up.written), s.client.openedClosed)
    && FedBy(s.server.down, s.dstOut, s.dstClosed)
    && FedBy(s.client.down, Flat(s.server.down.written), s.server.acceptedClosed)
  }

  lemma HopStepKeepsFed(h: F.Hop, e: F.Event, link: Bytes, closed: bool)
    requires F.Enabled(h, e) && Feeds(link, closed, h, e) && FedBy(h, link, closed)
    ensures FedBy(F.Next(h, e), link, closed)
  {
  }

  lemma HopStepExtends(h: F.Hop, e: F.Event)
    requires F.Enabled(h, e)
    ensures Flat(h.written) <= Flat(F.Next(h, e).written)
  {
  }

  /** A link may grow while it is open, and only close afterwards. */
  lemma LinkStepKeepsFed(h: F.Hop, link: Bytes, closed: bool, link': Bytes, closed': bool)
    requires FedBy(h, link, closed) && link <= link' && (closed ==> closed' && link' == link)
    ensures FedBy(h, link', closed')
  {
  }

  /** Cancelling a hop or moving the handler reads and writes nothing. */
  lemma ConnStepOnLinks(c: C.Conn, e: C.Event)
    requires C.Valid(c) && C.Enabled(c, e)
    ensures var c' := C.Next(c, e);
            && Flat(c.up.written) <= Flat(c'.up.written) && Flat(c.down.written) <= Flat(c'.down.written)
            && (c.openedClosed ==> c'.openedClosed && c'.up == c.up)
            && (c.acceptedClosed ==> c'.acceptedClosed && c'.down == c.down)
            && (!e.Up? ==> c'.up.got == c.up.got && c'.up.r == c.up.r)
            && (!e.Down? ==> c'.down.got == c.down.got && c'.down.r == c.down.r)
  {
    match e {
      case Up(f) =>
        HopStepExtends(c.up, f);
        if c.up.ended { C.EndedIsFinal(c.up, f); }
      case Down(f) =>
        HopStepExtends(c.down, f);
        if c.down.ended { C.EndedIsFinal(c.down, f); }
      case _ =>
    }
  }

  lemma ConnStepKeepsFed(c: C.Conn, e: C.Event, upLink: Bytes, upClosed: bool, downLink: Bytes, downClosed: bool)
    requires C.Valid(c) && C.Enabled(c, e)
    requires FedBy(c.up, upLink, upClosed) && FedBy(c.down, downLink, downClosed)
    requires e.Up? ==> Feeds(upLink, upClosed, c.up, e.e)
    requires e.Down? ==> Feeds(downLink, downClosed, c.down, e.e)
    ensures FedBy(C.Next(c, e).up, upLink, upClosed) && FedBy(C.Next(c, e).down, downLink, downClosed)
  {
    ConnStepOnLinks(c, e);
    match e {
      case Up(f) => HopStepKeepsFed(c.up, f, upLink, upClosed);
      case Down(f) => HopStepKeepsFed(c.down, f, downLink, downClosed);
      case _ =>
    }
  }

  lemma UpLinkGrows(h: F.Hop, c: C.Conn, e: C.Event)
    requires C.Valid(c) && C.Enabled(c, e) && FedBy(h, Flat(c.up.written), c.openedClosed)
    ensures FedBy(h, Flat(C.Next(c, e).up.written), C.Next(c, e).openedClosed)
  {
    ConnStepOnLinks(c, e);
    LinkStepKeepsFed(h, Flat(c.up.written), c.openedClosed, Flat(C.Next(c, e).up.written), C.Next(c, e).openedClosed);
  }

  lemma DownLinkGrows(h: F.Hop, c: C.Conn, e: C.Event)
    requires C.Valid(c) && C.Enabled(c, e) && FedBy(h, Flat(c.down.written), c.acceptedClosed)
    ensures FedBy(h, Flat(C.Next(c, e).down.written), C.Next(c, e).acceptedClosed)
  {
    ConnStepOnLinks(c, e);
    var c' := C.Next(c, e);
    LinkStepKeepsFed(h, Flat(c.down.written), c.acceptedClosed, Flat(c'.down.written), c'.acceptedClosed);
  }

  lemma ClientStepKeepsFed(s: State, f: C.Event)
    requires Valid(s) && Enabled(s, Client(f))
    ensures LinksFed(Next(s, Client(f)))
  {
    ConnStepKeepsFed(s.client, f, s.srcOut, s.srcClosed, Flat(s.server.down.written), s.server.acceptedClosed);
    UpLinkGrows(s.server.up, s.client, f);
  }

  lemma ServerStepKeepsFed(s: State, f: C.Event)
    requires Valid(s) && Enabled(s, Server(f))
    ensures LinksFed(Next(s, Server(f)))
  {
    ConnStepKeepsFed(s.server, f, Flat(s.client.up.written), s.client.openedClosed, s.dstOut, s.dstClosed);
    DownLinkGrows(s.client.down, s.server, f);
  }

  lemma ConnStepKeepsValid(c: C.Conn, e: C.Event)
    requires C.Valid(c) && C.Enabled(c, e)
    ensures C.Valid(C.Next(c, e))
  {
    C.NextKeepsControl(c, e);
    C.NextKeepsHops(c, e);
  }

  lemma NextKeepsValid(s: State, e: Event)
    requires Valid(s) && Enabled(s, e)
    ensures Valid(Next(s, e))
  {
    match e {
      case Client(f) =>
        ConnStepKeepsValid(s.client, f);
        ClientStepKeepsFed(s, f);
      case Server(f) =>
        ConnStepKeepsValid(s.server, f);
        ServerStepKeepsFed(s, f);
      case _ =>
        var s' := Next(s, e);
        LinkStepKeepsFed(s.client.up, s.srcOut, s.srcClosed, s'.srcOut, s'.srcClosed);
        LinkStepKeepsFed(s.server.down, s.dstOut, s.dstClosed, s'.dstOut, s'.dstClosed);
    }
  }

  lemma {:induction false} ExecKeepsValid(s: State, es: seq<Event>)
    requires Valid(s) && CanRun(s, es)
    ensures Valid(Exec(s, es))
    decreases |es|
  {
    if es == [] {
    } else {
      NextKeepsValid(s, es[0]);
      ExecKeepsValid(Next(s, es[0]), es[1..]);
    }
  }

  // A path through both processes: `first` reads `input`, `second` reads what `first` wrote.

  ghost predicate Path(input: Bytes, first: F.Hop, second: F.Hop)
  {
    && F.Valid(first) && F.Valid(second)
    && Flat(first.got) <= input
    && Flat(second.got) <= Flat(first.written)
  }

  /** Bytes a hop has read and not written: pushed out, still queued, or in the write that raised. */
  function Held(h: F.Hop): nat
  {
    Size(h.q.dropped) + Size(h.q.items) + Size(h.failed)
  }

  /** Bytes of the input that have not come out at the far end, wherever they are. */
  function Missing(input: Bytes, first: F.Hop, second: F.Hop): int
  {
    (|input| - Size(first.got)) + Held(first) + (Size(first.written) - Size(second.got)) + Held(second)
  }

  /**
   * At every moment the bytes that came out and the bytes that are missing add up to the input. If
   * neither queue has lost a chunk, what came out is a prefix of the input, for every schedule and
   * every way of cutting the stream into chunks. It is the whole input exactly when nothing is missing.
   */
  lemma PathDelivers(input: Bytes, first: F.Hop, second: F.Hop)
    requires Path(input, first, second)
    ensures |input| == Size(second.written) + Missing(input, first, second)
    ensures first.q.lost == [] && second.q.lost == [] ==> Flat(second.written) <= input
    ensures Flat(second.written) == input <==> Missing(input, first, second) == 0
  {
    F.LossIsVisible(first);
    F.LossIsVisible(second);
    if first.q.lost == [] && second.q.lost == [] {
      F.PrefixWithoutLoss(first);
      F.PrefixWithoutLoss(second);
    }
  }

  // The whole tunnel.

  /** `Forth`: from the source QEMU to the destination QEMU; `Back`: the other way. */
  datatype Direction = Forth | Back

  function Input(s: State, d: Direction): Bytes
  {
    if d.Forth? then s.srcOut else s.dstOut
  }

  function First(s: State, d: Direction): F.Hop
  {
    if d.Forth? then s.client.up else s.server.down
  }

  function Second(s: State, d: Direction): F.Hop
  {
    if d.Forth? then s.server.up else s.client.down
  }

  /** What an event writes into the socket that the direction starts at. */
  function WrittenBy(e: Event, d: Direction): Bytes
  {
    match e
    case SrcWrites(data) => if d.Forth? then data else []
    case DstWrites(data) => if d.Back? then data else []
    case _ => []
  }

  function Written(es: seq<Event>, d: Direction): Bytes
  {
    if es == [] then [] else WrittenBy(es[0], d) + Written(es[1..], d)
  }

  predicate InputClosed(s: State, d: Direction)
  {
    if d.Forth? then s.srcClosed else s.dstClosed
  }

  lemma {:induction false} InputFrom(s: State, es: seq<Event>, d: Direction)
    requires CanRun(s, es)
    ensures Input(Exec(s, es), d) == Input(s, d) + Written(es, d)
    ensures InputClosed(Exec(s, es), d) <==> InputClosed(s, d) || (if d.Forth? then SrcCloses else DstCloses) in es
    decreases |es|
  {
    if es == [] {
    } else {
      assert Input(Next(s, es[0]), d) == Input(s, d) + WrittenBy(es[0], d);
      InputFrom(Next(s, es[0]), es[1..], d);
      Regroup(Input(s, d), WrittenBy(es[0], d), Written(es[1..], d));
    }
  }

  /** The input of a direction is what the QEMU process at its start has written, in order. */
  lemma InputIsWritten(es: seq<Event>, d: Direction)
    requires CanRun(NewTunnel(), es)
    ensures var s := Exec(NewTunnel(), es);
            && Input(s, d) == Written(es, d)
            && (InputClosed(s, d) <==> (if d.Forth? then SrcCloses else DstCloses) in es)
  {
    InputFrom(NewTunnel(), es, d);
    assert [] + Written(es, d) == Written(es, d);
  }

  /** What has been written into the socket at the far end. */
  function Output(s: State, d: Direction): Bytes
  {
    Flat(Second(s, d).written)
  }

  lemma RunIsPath(es: seq<Event>, d: Direction)
    requires CanRun(NewTunnel(), es)
    ensures var s := Exec(NewTunnel(), es); Path(Input(s, d), First(s, d), Second(s, d))
  {
    ExecKeepsValid(NewTunnel(), es);
  }

  /** Every reachable state: prefix without loss, and an exact account of what has not come out. */
  lemma EndToEnd(es: seq<Event>, d: Direction)
    requires CanRun(NewTunnel(), es)
    ensures var s := Exec(NewTunnel(), es);
            && (First(s, d).q.lost == [] && Second(s, d).q.lost == [] ==> Output(s, d) <= Input(s, d))
            && |Input(s, d)| == |Output(s, d)| + Missing(Input(s, d), First(s, d), Second(s, d))
            && (Output(s, d) == Input(s, d) <==> Missing(Input(s, d), First(s, d), Second(s, d)) == 0)
  {
    RunIsPath(es, d);
    var s := Exec(NewTunnel(), es);
    PathDelivers(Input(s, d), First(s, d), Second(s, d));
  }

  // What the two forwarders of a direction take part in.

  function ClientEvents(es: seq<Event>): seq<C.Event>
  {
    if es == [] then [] else (if es[0].Client? then [es[0].e] else []) + ClientEvents(es[1..])
  }

  function ServerEvents(es: seq<Event>): seq<C.Event>
  {
    if es == [] then [] else (if es[0].Server? then [es[0].e] else []) + ServerEvents(es[1..])
  }

  lemma {:induction false} ClientRuns(s: State, es: seq<Event>)
    requires CanRun(s, es)
    ensures C.CanRun(s.client, ClientEvents(es)) && C.Exec(s.client, ClientEvents(es)) == Exec(s, es).client
    decreases |es|
  {
    if es == [] {
    } else {
      ClientRuns(Next(s, es[0]), es[1..]);
      if es[0].Client? {
        assert ClientEvents(es)[1..] == ClientEvents(es[1..]);
      } else {
        assert ClientEvents(es) == ClientEvents(es[1..]);
      }
    }
  }

  lemma {:induction false} ServerRuns(s: State, es: seq<Event>)
    requires CanRun(s, es)
    ensures C.CanRun(s.server, ServerEvents(es)) && C.Exec(s.server, ServerEvents(es)) == Exec(s, es).server
    decreases |es|
  {
    if es == [] {
    } else {
      ServerRuns(Next(s, es[0]), es[1..]);
      if es[0].Server? {
        assert ServerEvents(es)[1..] == ServerEvents(es[1..]);
      } else {
        assert ServerEvents(es) == ServerEvents(es[1..]);
      }
    }
  }

  /** `FirstLeg` reads from the writing QEMU, `SecondLeg` writes to the reading QEMU. */
  datatype Leg = FirstLeg | SecondLeg

  function HopOf(s: State, d: Direction, leg: Leg): F.Hop
  {
    if leg.FirstLeg? then First(s, d) else Second(s, d)
  }

  function ConnEvents(es: seq<Event>, d: Direction, leg: Leg): seq<C.Event>
  {
    if d.Forth? == leg.FirstLeg? then ClientEvents(es) else ServerEvents(es)
  }

  function WayOf(d: Direction): C.Way
  {
    if d.Forth? then C.Upward else C.Downward
  }

  /** The steps of one forwarder, its cancellation included, out of the events of the tunnel. */
  function LegTrace(es: seq<Event>, d: Direction, leg: Leg): seq<F.Event>
    requires CanRun(NewTunnel(), es)
  {
    ClientRuns(NewTunnel(), es);
    ServerRuns(NewTunnel(), es);
    C.Trace(C.NewConn(), ConnEvents(es, d, leg), WayOf(d))
  }

  lemma LegRuns(es: seq<Event>, d: Direction, leg: Leg)
    requires CanRun(NewTunnel(), es)
    ensures F.CanRun(F.NewHop(), LegTrace(es, d, leg))
    ensures F.Exec(F.NewHop(), LegTrace(es, d, leg)) == HopOf(Exec(NewTunnel(), es), d, leg)
  {
    ClientRuns(NewTunnel(), es);
    ServerRuns(NewTunnel(), es);
    C.TraceRuns(C.NewConn(), ConnEvents(es, d, leg), WayOf(d));
  }

  /** No read of this forwarder found 1000 chunks queued, no write raised, no cancellation met queued chunks. */
  predicate CleanLeg(es: seq<Event>, d: Direction, leg: Leg)
    requires CanRun(NewTunnel(), es)
  {
    LegRuns(es, d, leg);
    F.Clean(F.NewHop(), LegTrace(es, d, leg))
  }

  predicate OverflowsOn(es: seq<Event>, d: Direction, leg: Leg)
    requires CanRun(NewTunnel(), es)
  {
    LegRuns(es, d, leg);
    F.Overflows(F.NewHop(), LegTrace(es, d, leg))
  }

  /** Both hops of a path ran to end-of-file, with no cancellation and no failing write. */
  predicate Complete(s: State, d: Direction)
  {
    F.RanToEof(First(s, d)) && F.RanToEof(Second(s, d))
  }

  lemma LegDeliversIff(es: seq<Event>, d: Direction, leg: Leg)
    requires CanRun(NewTunnel(), es) && HopOf(Exec(NewTunnel(), es), d, leg).ended
    ensures var h := HopOf(Exec(NewTunnel(), es), d, leg);
            && (CleanLeg(es, d, leg) <==> h.written == h.got)
            && Size(h.written) <= Size(h.got) && (CleanLeg(es, d, leg) <==> Size(h.written) == Size(h.got))
            && (F.RanToEof(h) ==> (CleanLeg(es, d, leg) <==> !OverflowsOn(es, d, leg)))
  {
    var trace := LegTrace(es, d, leg);
    LegRuns(es, d, leg);
    F.DeliversIffClean(trace);
    if F.RanToEof(F.Exec(F.NewHop(), trace)) { F.CleanIffNoOverflow(trace); }
  }

  /** Each hop has read the beginning of what it could read. */
  lemma PathIsFed(es: seq<Event>, d: Direction)
    requires CanRun(NewTunnel(), es)
    ensures var s := Exec(NewTunnel(), es);
            Flat(First(s, d).got) <= Input(s, d) && Flat(Second(s, d).got) <= Flat(First(s, d).written)
  {
    RunIsPath(es, d);
  }

  /** `read2` is read from what `wrote1` put on the wire; lengths only shrink along the way. */
  lemma AllArrivesIff(input: Bytes, read1: Bytes, wrote1: Bytes, read2: Bytes, wrote2: Bytes)
    requires read1 <= input && |wrote1| <= |read1| && (|wrote1| == |read1| ==> wrote1 == read1)
    requires read2 <= wrote1 && |wrote2| <= |read2| && (|wrote2| == |read2| ==> wrote2 == read2)
    ensures wrote2 == input <==> read1 == input && |wrote1| == |read1| && read2 == wrote1 && |wrote2| == |read2|
  {
  }

  /**
   * For every run in which both forwarders of a direction are over, however they ended and for every
   * schedule: all data arrives if and only if both read all that there was and both were clean.
   */
  lemma ForwardsAllDataIff(es: seq<Event>, d: Direction)
    requires CanRun(NewTunnel(), es)
    requires First(Exec(NewTunnel(), es), d).ended && Second(Exec(NewTunnel(), es), d).ended
    ensures var s := Exec(NewTunnel(), es); var first, second := First(s, d), Second(s, d);
            Output(s, d) == Input(s, d) <==>
              && Flat(first.got) == Input(s, d) && CleanLeg(es, d, FirstLeg)
              && Flat(second.got) == Flat(first.written) && CleanLeg(es, d, SecondLeg)
  {
    var s := Exec(NewTunnel(), es);
    PathIsFed(es, d);
    LegDeliversIff(es, d, FirstLeg);
    LegDeliversIff(es, d, SecondLeg);
    AllArrivesIff(Input(s, d), Flat(First(s, d).got), Flat(First(s, d).written), Flat(Second(s, d).got), Output(s, d));
  }

  lemma CompleteReadsAll(es: seq<Event>, d: Direction)
    requires CanRun(NewTunnel(), es) && Complete(Exec(NewTunnel(), es), d)
    ensures var s := Exec(NewTunnel(), es);
            && InputClosed(s, d)
            && Flat(First(s, d).got) == Input(s, d) && Flat(Second(s, d).got) == Flat(First(s, d).written)
  {
    ExecKeepsValid(NewTunnel(), es);
  }

  /** When both ran to end-of-file the only condition left is that no read found 1000 chunks queued. */
  lemma EofForwardsAllIff(es: seq<Event>, d: Direction)
    requires CanRun(NewTunnel(), es) && Complete(Exec(NewTunnel(), es), d)
    ensures var s := Exec(NewTunnel(), es);
            && InputClosed(s, d)
            && (Output(s, d) == Input(s, d) <==> !OverflowsOn(es, d, FirstLeg) && !OverflowsOn(es, d, SecondLeg))
  {
    CompleteReadsAll(es, d);
    ForwardsAllDataIff(es, d);
    LegDeliversIff(es, d, FirstLeg);
    LegDeliversIff(es, d, SecondLeg);
  }

  /** Two such runs with the same input give the same output, however differently they were scheduled. */
  lemma OutputIndependentOfSchedule(es: seq<Event>, fs: seq<Event>, d: Direction)
    requires CanRun(NewTunnel(), es) && Complete(Exec(NewTunnel(), es), d)
    requires CleanLeg(es, d, FirstLeg) && CleanLeg(es, d, SecondLeg)
    requires CanRun(NewTunnel(), fs) && Complete(Exec(NewTunnel(), fs), d)
    requires CleanLeg(fs, d, FirstLeg) && CleanLeg(fs, d, SecondLeg)
    requires Input(Exec(NewTunnel(), es), d) == Input(Exec(NewTunnel(), fs), d)
    ensures Output(Exec(NewTunnel(), es), d) == Output(Exec(NewTunnel(), fs), d)
  {
    CompleteReadsAll(es, d);
    CompleteReadsAll(fs, d);
    ForwardsAllDataIff(es, d);
    ForwardsAllDataIff(fs, d);
  }

  predicate SawEof(h: F.Hop)
  {
    h.r == F.ReadDone(F.Eof)
  }

  lemma EofIsNew(h: F.Hop, e: F.Event)
    requires F.Control(h) && F.Enabled(h, e) && !SawEof(h) && SawEof(F.Next(h, e))
    ensures e == F.EndRead(F.Eof) && !h.ended
  {
  }

  /** The client can see end-of-file from the server only while its own side of the link is open. */
  lemma ClientEofStep(c: C.Conn, f: C.Event, peer: F.Hop)
    requires C.Control(c) && F.Control(c.down) && C.Enabled(c, f) && FedBy(peer, Flat(c.up.written), c.openedClosed)
    requires !SawEof(c.down) && SawEof(C.Next(c, f).down)
    ensures !SawEof(peer)
  {
    if f.Down? { EofIsNew(c.down, f.e); }
  }

  lemma ServerEofStep(c: C.Conn, f: C.Event, peer: F.Hop)
    requires C.Control(c) && F.Control(c.up) && C.Enabled(c, f) && FedBy(peer, Flat(c.down.written), c.acceptedClosed)
    requires !SawEof(c.up) && SawEof(C.Next(c, f).up)
    ensures !SawEof(peer)
  {
    if f.Up? { EofIsNew(c.up, f.e); }
  }

  lemma EofStep(s: State, e: Event)
    requires Valid(s) && Enabled(s, e) && !(SawEof(s.server.up) && SawEof(s.client.down))
    ensures !(SawEof(Next(s, e).server.up) && SawEof(Next(s, e).client.down))
  {
    match e {
      case Client(f) =>
        if !SawEof(s.client.down) && SawEof(C.Next(s.client, f).down) { ClientEofStep(s.client, f, s.server.up); }
      case Server(f) =>
        if !SawEof(s.server.up) && SawEof(C.Next(s.server, f).up) { ServerEofStep(s.server, f, s.client.down); }
      case _ =>
    }
  }

  lemma {:induction false} OneEofBetweenProcesses(s: State, es: seq<Event>)
    requires Valid(s) && CanRun(s, es) && !(SawEof(s.server.up) && SawEof(s.client.down))
    ensures !(SawEof(Exec(s, es).server.up) && SawEof(Exec(s, es).client.down))
    decreases |es|
  {
    if es == [] {
    } else {
      NextKeepsValid(s, es[0]);
      EofStep(s, es[0]);
      OneEofBetweenProcesses(Next(s, es[0]), es[1..]);
    }
  }

  /**
   * Of the two directions of a connection at most one ever runs to end-of-file on both hops: the link
   * between the processes is closed only when both hops of a process are over.
   */
  lemma OnlyOneDirectionCompletes(es: seq<Event>)
    requires CanRun(NewTunnel(), es)
    ensures var s := Exec(NewTunnel(), es); !(Complete(s, Forth) && Complete(s, Back))
  {
    OneEofBetweenProcesses(NewTunnel(), es);
  }

  // The tunnel under asyncio's schedule.

  /** Both forwarders of the direction run as asyncio runs them, with stream buffers of this limit. */
  ghost predicate FifoLegs(es: seq<Event>, d: Direction, limit: nat)
    requires CanRun(NewTunnel(), es)
  {
    L.Fifo(limit, LegTrace(es, d, FirstLeg)) && L.Fifo(limit, LegTrace(es, d, SecondLeg))
  }

  lemma FifoLegDelivers(es: seq<Event>, d: Direction, leg: Leg, limit: nat)
    requires CanRun(NewTunnel(), es) && L.SafeLimit(limit) && L.Fifo(limit, LegTrace(es, d, leg))
    ensures var h := HopOf(Exec(NewTunnel(), es), d, leg);
            Flat(h.written) <= Flat(h.got) && (F.RanToEof(h) ==> Flat(h.written) == Flat(h.got))
  {
    LegRuns(es, d, leg);
    L.FifoDelivers(limit, LegTrace(es, d, leg));
    var h := HopOf(Exec(NewTunnel(), es), d, leg);
    FlatPrefix(h.written, h.got);
  }

  /**
   * Under asyncio's schedule with a safe limit, such as the default, the output is a prefix of the input
   * in every reachable state, and all of it once both hops have run to end-of-file.
   */
  lemma ForwardsAllUnderFifo(es: seq<Event>, d: Direction, limit: nat)
    requires CanRun(NewTunnel(), es) && L.SafeLimit(limit) && FifoLegs(es, d, limit)
    ensures var s := Exec(NewTunnel(), es);
            Output(s, d) <= Input(s, d) && (Complete(s, d) ==> Output(s, d) == Input(s, d))
  {
    PathIsFed(es, d);
    FifoLegDelivers(es, d, FirstLeg, limit);
    FifoLegDelivers(es, d, SecondLeg, limit);
    if Complete(Exec(NewTunnel(), es), d) { CompleteReadsAll(es, d); }
  }
}
