// The whole service: a client process and a server process, any number of connection pairs between
// them, and the sockets of the QEMU processes at both ends.
module Network {
  import opened Chunks
  import F = Forwarder
  import C = ConnectionHandler
  import H = Histogram
  import P = Proxy
  import T = Tunnel
  import L = EventLoop
  import R = TunnelRuns

  /** What a QEMU process has written into its socket so far. */
  datatype Socket = Socket(out: Bytes, closed: bool)

  /**
   * `partner` maps the client's connection id to the server's id of the same TCP connection. The two
   * processes number their connections on their own, so the ids of a pair need not agree.
   */
  datatype State = State(client: P.State, server: P.State, partner: map<nat, nat>,
                         src: map<nat, Socket>, dst: map<nat, Socket>)

  /** `Pair(i, t)`: something happens in the pair with the client id `i`. */
  datatype Event = SourceConnects | ServerAccepts(i: nat) | Pair(i: nat, t: T.Event)

  function NewNetwork(): State
  {
    State(P.NewProxy(), P.NewProxy(), map[], map[], map[])
  }

  predicate Known(n: State, i: nat)
  {
    i in n.client.conns && i in n.src && i in n.dst && (i in n.partner ==> n.partner[i] in n.server.conns)
  }

  /** The tunnel of one pair. Until the server accepts it, its handler there has not started. */
  function View(n: State, i: nat): T.State
    requires Known(n, i)
  {
    var server := if i in n.partner then n.server.conns[n.partner[i]] else C.NewConn();
    T.State(n.client.conns[i], server, n.src[i].out, n.src[i].closed, n.dst[i].out, n.dst[i].closed)
  }

  predicate Enabled(n: State, e: Event)
  {
    match e
    case SourceConnects => true
    case ServerAccepts(i) => Known(n, i) && i !in n.partner
    case Pair(i, t) => Known(n, i) && (t.Server? ==> i in n.partner) && T.Enabled(View(n, i), t)
  }

  function Next(n: State, e: Event): State
    requires Enabled(n, e)
  {
    match e
    case SourceConnects =>
      var i := n.client.counter + 1;
      n.(client := P.Next(n.client, P.Accept), src := n.src[i := Socket([], false)], dst := n.dst[i := Socket([], false)])
    case ServerAccepts(i) =>
      n.(server := P.Next(n.server, P.Accept), partner := n.partner[i := n.server.counter + 1])
    case Pair(i, Client(f)) => n.(client := P.Next(n.client, P.Step(i, f)))
    case Pair(i, Server(f)) => n.(server := P.Next(n.server, P.Step(n.partner[i], f)))
    case Pair(i, SrcWrites(data)) => n.(src := n.src[i := n.src[i].(out := n.src[i].out + data)])
    case Pair(i, SrcCloses) => n.(src := n.src[i := n.src[i].(closed := true)])
    case Pair(i, DstWrites(data)) => n.(dst := n.dst[i := n.dst[i].(out := n.dst[i].out + data)])
    case Pair(i, DstCloses) => n.(dst := n.dst[i := n.dst[i].(closed := true)])
  }

  predicate CanRun(n: State, es: seq<Event>)
    decreases |es|
  {
    es == [] || (Enabled(n, es[0]) && CanRun(Next(n, es[0]), es[1..]))
  }

  function Exec(n: State, es: seq<Event>): State
    requires CanRun(n, es)
    decreases |es|
  {
    if es == [] then n else Exec(Next(n, es[0]), es[1..])
  }

  /** Every pair is known to both ends, and no server connection belongs to two pairs. */
  ghost predicate Paired(n: State)
  {
    && P.Numbered(n.client) && P.Numbered(n.server)
    && (forall i :: i in n.client.conns ==> i in n.src && i in n.dst)
    && (forall i :: i in n.partner ==> i in n.client.conns && n.partner[i] in n.server.conns)
    && (forall i, j :: i in n.partner && j in n.partner && n.partner[i] == n.partner[j] ==> i == j)
  }

  lemma NextKeepsPaired(n: State, e: Event)
    requires Paired(n) && Enabled(n, e)
    ensures Paired(Next(n, e))
  {
    match e {
      case SourceConnects => P.NextKeepsNumbered(n.client, P.Accept);
      case ServerAccepts(i) => P.NextKeepsNumbered(n.server, P.Accept);
      case Pair(i, Client(f)) => P.NextKeepsNumbered(n.client, P.Step(i, f));
      case Pair(i, Server(f)) => P.NextKeepsNumbered(n.server, P.Step(n.partner[i], f));
      case _ =>
    }
  }

  // One pair's share of a run.

  /** The part of a pair in an event. */
  function Part(e: Event, i: nat): seq<T.Event>
  {
    if e.Pair? && e.i == i then [e.t] else []
  }

  function Project(es: seq<Event>, i: nat): seq<T.Event>
  {
    if es == [] then [] else Part(es[0], i) + Project(es[1..], i)
  }

  /** A pair that has not connected yet is in the state in which it will start. */
  function ViewOf(n: State, i: nat): T.State
    requires Paired(n)
  {
    if i in n.client.conns then View(n, i) else T.NewTunnel()
  }

  lemma OwnStep(n: State, i: nat, t: T.Event)
    requires Paired(n) && Enabled(n, Pair(i, t)) && Paired(Next(n, Pair(i, t)))
    ensures ViewOf(Next(n, Pair(i, t)), i) == T.Next(ViewOf(n, i), t)
  {
  }

  lemma ServerStepElsewhere(n: State, j: nat, f: C.Event, i: nat)
    requires Paired(n) && Enabled(n, Pair(j, T.Server(f))) && Paired(Next(n, Pair(j, T.Server(f)))) && i != j
    ensures ViewOf(Next(n, Pair(j, T.Server(f))), i) == ViewOf(n, i)
  {
    assert i in n.partner ==> n.partner[i] != n.partner[j];
  }

  lemma StepElsewhere(n: State, j: nat, t: T.Event, i: nat)
    requires Paired(n) && Enabled(n, Pair(j, t)) && Paired(Next(n, Pair(j, t))) && i != j && !t.Server?
    ensures ViewOf(Next(n, Pair(j, t)), i) == ViewOf(n, i)
  {
  }

  lemma AcceptElsewhere(n: State, e: Event, i: nat)
    requires Paired(n) && Enabled(n, e) && Paired(Next(n, e)) && !e.Pair?
    ensures ViewOf(Next(n, e), i) == ViewOf(n, i)
  {
  }

  /** The pair that takes part makes its tunnel's step; no other pair notices anything. */
  lemma PartRuns(n: State, e: Event, i: nat)
    requires Paired(n) && Enabled(n, e)
    ensures Paired(Next(n, e))
    ensures var part, t, t' := Part(e, i), ViewOf(n, i), ViewOf(Next(n, e), i);
            if part == [] then t' == t else part == [part[0]] && T.Enabled(t, part[0]) && t' == T.Next(t, part[0])
  {
    NextKeepsPaired(n, e);
    match e {
      case Pair(j, t) =>
        if j == i { OwnStep(n, i, t); }
        else if t.Server? { ServerStepElsewhere(n, j, t.e, i); }
        else { StepElsewhere(n, j, t, i); }
      case _ => AcceptElsewhere(n, e, i);
    }
  }

  lemma JoinRuns(t: T.State, part: seq<T.Event>, later: seq<T.Event>, t': T.State)
    requires if part == [] then t' == t else part == [part[0]] && T.Enabled(t, part[0]) && t' == T.Next(t, part[0])
    requires T.CanRun(t', later)
    ensures T.CanRun(t, part + later) && T.Exec(t, part + later) == T.Exec(t', later)
  {
    if part == [] {
      assert part + later == later;
    } else {
      assert (part + later)[0] == part[0] && (part + later)[1..] == later;
    }
  }

  lemma {:induction false} ProjectRuns(n: State, es: seq<Event>, i: nat)
    requires Paired(n) && CanRun(n, es)
    ensures Paired(Exec(n, es))
    ensures T.CanRun(ViewOf(n, i), Project(es, i))
    ensures T.Exec(ViewOf(n, i), Project(es, i)) == ViewOf(Exec(n, es), i)
    decreases |es|
  {
    if es == [] {
    } else {
      var n' := Next(n, es[0]);
      PartRuns(n, es[0], i);
      ProjectRuns(n', es[1..], i);
      JoinRuns(ViewOf(n, i), Part(es[0], i), Project(es[1..], i), ViewOf(n', i));
    }
  }

  /** A pair in a run of the whole service is the tunnel that the pair's own events lead to. */
  lemma PairIsTunnel(es: seq<Event>, i: nat)
    requires CanRun(NewNetwork(), es) && i in Exec(NewNetwork(), es).client.conns
    ensures Known(Exec(NewNetwork(), es), i)
    ensures T.CanRun(T.NewTunnel(), Project(es, i))
    ensures T.Exec(T.NewTunnel(), Project(es, i)) == View(Exec(NewNetwork(), es), i)
  {
    ProjectRuns(NewNetwork(), es, i);
  }

  /**
   * Every pair, in every run of the whole service: without eviction on its own path, the bytes at one end
   * are the first bytes from its own other end; once both forwarders of a direction are over, all data has
   * arrived if and only if they read everything and were clean, whatever the other pairs do.
   */
  lemma EveryPairForwardsAllIff(es: seq<Event>, i: nat, d: T.Direction)
    requires CanRun(NewNetwork(), es) && i in Exec(NewNetwork(), es).client.conns
    ensures Known(Exec(NewNetwork(), es), i) && T.CanRun(T.NewTunnel(), Project(es, i))
    ensures var v := View(Exec(NewNetwork(), es), i); var first, second := T.First(v, d), T.Second(v, d);
            && (first.q.lost == [] && second.q.lost == [] ==> T.Output(v, d) <= T.Input(v, d))
            && (first.ended && second.ended ==>
                  (T.Output(v, d) == T.Input(v, d) <==>
                     && Flat(first.got) == T.Input(v, d) && T.CleanLeg(Project(es, i), d, T.FirstLeg)
                     && Flat(second.got) == Flat(first.written) && T.CleanLeg(Project(es, i), d, T.SecondLeg)))
  {
    PairIsTunnel(es, i);
    var v := T.Exec(T.NewTunnel(), Project(es, i));
    T.EndToEnd(Project(es, i), d);
    if T.First(v, d).ended && T.Second(v, d).ended { T.ForwardsAllDataIff(Project(es, i), d); }
  }

  /**
   * Also with evictions, failures and cancellations: what is written at one end of a pair are chunks that
   * came in order from the beginning of what that pair's own other end wrote.
   */
  lemma EveryPairForwardsOnlyItsOwn(es: seq<Event>, i: nat, d: T.Direction)
    requires CanRun(NewNetwork(), es) && i in Exec(NewNetwork(), es).client.conns
    ensures Known(Exec(NewNetwork(), es), i)
    ensures var v := View(Exec(NewNetwork(), es), i); var first, second := T.First(v, d), T.Second(v, d);
            && Flat(first.got) <= T.Input(v, d) && F.Selects(first.q.pops, first.got, first.written)
            && Flat(second.got) <= Flat(first.written) && F.Selects(second.q.pops, second.got, second.written)
  {
    PairIsTunnel(es, i);
    T.PathIsFed(Project(es, i), d);
    T.LegRuns(Project(es, i), d, T.FirstLeg);
    T.LegRuns(Project(es, i), d, T.SecondLeg);
    F.WritesAreReads(T.LegTrace(Project(es, i), d, T.FirstLeg));
    F.WritesAreReads(T.LegTrace(Project(es, i), d, T.SecondLeg));
  }

  /** Under asyncio's schedule with a safe limit every pair forwards all its data, however many pairs there are. */
  lemma EveryPairUnderFifo(es: seq<Event>, i: nat, d: T.Direction, limit: nat)
    requires CanRun(NewNetwork(), es) && i in Exec(NewNetwork(), es).client.conns
    requires T.CanRun(T.NewTunnel(), Project(es, i)) && T.FifoLegs(Project(es, i), d, limit) && L.SafeLimit(limit)
    ensures Known(Exec(NewNetwork(), es), i)
    ensures var v := View(Exec(NewNetwork(), es), i);
            T.Output(v, d) <= T.Input(v, d) && (T.Complete(v, d) ==> T.Output(v, d) == T.Input(v, d))
  {
    PairIsTunnel(es, i);
    T.ForwardsAllUnderFifo(Project(es, i), d, limit);
  }

  // Every run of a tunnel is some pair's run, beside whatever the other pairs do.

  function PairEvents(i: nat, ts: seq<T.Event>): seq<Event>
  {
    if ts == [] then [] else [Pair(i, ts[0])] + PairEvents(i, ts[1..])
  }

  /** Only the pair's own connections and sockets change. */
  ghost predicate SamePairs(n: State, n': State)
  {
    && n'.partner == n.partner && n'.client.conns.Keys == n.client.conns.Keys
    && n'.client.counter == n.client.counter && n'.server.counter == n.server.counter
  }

  lemma OwnPairStep(n: State, i: nat, t: T.Event, j: nat)
    requires Paired(n) && Enabled(n, Pair(i, t))
    ensures var n' := Next(n, Pair(i, t));
            && Paired(n') && SamePairs(n, n')
            && ViewOf(n', i) == T.Next(ViewOf(n, i), t) && (j != i ==> ViewOf(n', j) == ViewOf(n, j))
  {
    PartRuns(n, Pair(i, t), i);
    PartRuns(n, Pair(i, t), j);
  }

  lemma {:induction false} TunnelRunHappens(n: State, i: nat, ts: seq<T.Event>, j: nat)
    requires Paired(n) && i in n.partner && T.CanRun(ViewOf(n, i), ts)
    ensures CanRun(n, PairEvents(i, ts))
    ensures var n' := Exec(n, PairEvents(i, ts));
            && Paired(n') && SamePairs(n, n')
            && ViewOf(n', i) == T.Exec(ViewOf(n, i), ts) && (j != i ==> ViewOf(n', j) == ViewOf(n, j))
    decreases |ts|
  {
    if ts == [] {
    } else {
      OwnPairStep(n, i, ts[0], j);
      TunnelRunHappens(Next(n, Pair(i, ts[0])), i, ts[1..], j);
      assert PairEvents(i, ts)[1..] == PairEvents(i, ts[1..]);
    }
  }

  lemma {:induction false} RunConcat(n: State, a: seq<Event>, b: seq<Event>)
    requires CanRun(n, a) && CanRun(Exec(n, a), b)
    ensures CanRun(n, a + b) && Exec(n, a + b) == Exec(Exec(n, a), b)
    decreases |a|
  {
    if a == [] {
      assert a + b == b;
    } else {
      RunConcat(Next(n, a[0]), a[1..], b);
      assert (a + b)[1..] == a[1..] + b;
    }
  }

  lemma Then(es: seq<Event>, n: State, e: Event) returns (es': seq<Event>, n': State)
    requires CanRun(NewNetwork(), es) && Exec(NewNetwork(), es) == n && Paired(n) && Enabled(n, e)
    ensures CanRun(NewNetwork(), es') && Exec(NewNetwork(), es') == n' && n' == Next(n, e) && Paired(n')
  {
    assert [e][1..] == [];
    RunConcat(NewNetwork(), es, [e]);
    NextKeepsPaired(n, e);
    es', n' := es + [e], Next(n, e);
  }

  /** Two pairs whose connections the server has accepted in the opposite order. */
  lemma TwoPairsConnect() returns (es: seq<Event>, n: State)
    ensures CanRun(NewNetwork(), es) && Exec(NewNetwork(), es) == n && Paired(n)
    ensures n.partner == map[1 := 2, 2 := 1] && ViewOf(n, 1) == T.NewTunnel() && ViewOf(n, 2) == T.NewTunnel()
  {
    es, n := [], NewNetwork();
    es, n := Then(es, n, SourceConnects);
    es, n := Then(es, n, SourceConnects);
    es, n := Then(es, n, ServerAccepts(2));
    es, n := Then(es, n, ServerAccepts(1));
  }

  predicate Delivered(t: T.State, d: T.Direction, input: Bytes)
  {
    T.Input(t, d) == input == T.Output(t, d)
  }

  /** A pair that has just connected delivers its data; the pair `j` stays as it is. */
  lemma PairDelivers(es: seq<Event>, n: State, i: nat, d: T.Direction, input: Bytes, j: nat)
    returns (es': seq<Event>, n': State)
    requires CanRun(NewNetwork(), es) && Exec(NewNetwork(), es) == n && Paired(n)
    requires i in n.partner && ViewOf(n, i) == T.NewTunnel() && i != j
    ensures CanRun(NewNetwork(), es') && Exec(NewNetwork(), es') == n' && Paired(n') && n'.partner == n.partner
    ensures Delivered(ViewOf(n', i), d, input) && ViewOf(n', j) == ViewOf(n, j)
  {
    var ts := R.CanDeliver(d, input, L.DEFAULT_LIMIT);
    TunnelRunHappens(n, i, ts, j);
    RunConcat(NewNetwork(), es, PairEvents(i, ts));
    es', n' := es + PairEvents(i, ts), Exec(n, PairEvents(i, ts));
  }

  /** Two pairs are known to the client, the server has accepted them in the other order, and both have delivered. */
  ghost predicate BothDelivered(es: seq<Event>, d1: T.Direction, input1: Bytes, d2: T.Direction, input2: Bytes)
  {
    CanRun(NewNetwork(), es) &&
    var n := Exec(NewNetwork(), es);
    && Known(n, 1) && Known(n, 2) && n.partner == map[1 := 2, 2 := 1]
    && Delivered(View(n, 1), d1, input1) && Delivered(View(n, 2), d2, input2)
  }

  /**
   * Two pairs at once: for any data and any directions some run delivers all of it on both, although the
   * two processes number the connections differently.
   */
  lemma TwoPairsCanDeliver(d1: T.Direction, input1: Bytes, d2: T.Direction, input2: Bytes)
    ensures exists es :: BothDelivered(es, d1, input1, d2, input2)
  {
    var es, n := TwoPairsConnect();
    es, n := PairDelivers(es, n, 1, d1, input1, 2);
    es, n := PairDelivers(es, n, 2, d2, input2, 1);
    assert 1 in n.partner && 2 in n.partner;
    assert BothDelivered(es, d1, input1, d2, input2);
  }

  // Each process on its own.

  function ClientPart(es: seq<Event>): seq<P.Event>
  {
    if es == [] then []
    else
      (match es[0]
       case SourceConnects => [P.Accept]
       case Pair(i, Client(f)) => [P.Step(i, f)]
       case _ => []) + ClientPart(es[1..])
  }

  function ServerPart(n: State, es: seq<Event>): seq<P.Event>
    requires CanRun(n, es)
    decreases |es|
  {
    if es == [] then []
    else
      (match es[0]
       case ServerAccepts(_) => [P.Accept]
       case Pair(i, Server(f)) => [P.Step(n.partner[i], f)]
       case _ => []) + ServerPart(Next(n, es[0]), es[1..])
  }

  lemma {:induction false} ClientRuns(n: State, es: seq<Event>)
    requires CanRun(n, es)
    ensures P.CanRun(n.client, ClientPart(es)) && P.Exec(n.client, ClientPart(es)) == Exec(n, es).client
    decreases |es|
  {
    if es == [] {
    } else {
      ClientRuns(Next(n, es[0]), es[1..]);
      if es[0].SourceConnects? || (es[0].Pair? && es[0].t.Client?) {
        assert ClientPart(es)[1..] == ClientPart(es[1..]);
      } else {
        assert ClientPart(es) == ClientPart(es[1..]);
      }
    }
  }

  lemma {:induction false} ServerRuns(n: State, es: seq<Event>)
    requires CanRun(n, es)
    ensures P.CanRun(n.server, ServerPart(n, es)) && P.Exec(n.server, ServerPart(n, es)) == Exec(n, es).server
    decreases |es|
  {
    if es == [] {
    } else {
      var n' := Next(n, es[0]);
      ServerRuns(n', es[1..]);
      if es[0].ServerAccepts? || (es[0].Pair? && es[0].t.Server?) {
        assert ServerPart(n, es)[1..] == ServerPart(n', es[1..]);
      } else {
        assert ServerPart(n, es) == ServerPart(n', es[1..]);
      }
    }
  }

  /** Both processes' histograms account for every byte they have read, over all pairs and directions. */
  lemma BothHistogramsConserve(es: seq<Event>)
    requires CanRun(NewNetwork(), es)
    ensures var n := Exec(NewNetwork(), es);
            && H.Bytes(n.client.histogram, READ_SIZE) == P.TotalAccounted(n.client.conns, n.client.counter)
            && H.Bytes(n.server.histogram, READ_SIZE) == P.TotalAccounted(n.server.conns, n.server.counter)
  {
    ClientRuns(NewNetwork(), es);
    ServerRuns(NewNetwork(), es);
    P.HistogramConserves(ClientPart(es));
    P.HistogramConserves(ServerPart(NewNetwork(), es));
  }
}
