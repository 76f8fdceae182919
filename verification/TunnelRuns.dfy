// Runs of the whole tunnel: it can deliver any data in either direction, and with an
// unsafe limit it can lose some.
module TunnelRuns {
  import opened Chunks
  import opened Tunnel
  import F = Forwarder
  import C = ConnectionHandler
  import L = EventLoop

  /** A run of the tunnel with the steps of the two forwarders of direction `d`. */
  datatype Run = Run(d: Direction, es: seq<Event>, s: State, first: seq<F.Event>, second: seq<F.Event>)

  lemma {:induction false} RunSnoc(s: State, es: seq<Event>, e: Event)
    requires CanRun(s, es) && Enabled(Exec(s, es), e)
    ensures CanRun(s, es + [e]) && Exec(s, es + [e]) == Next(Exec(s, es), e)
    decreases |es|
  {
    if es == [] {
      assert es + [e] == [e] && [e][1..] == [];
    } else {
      RunSnoc(Next(s, es[0]), es[1..], e);
      assert (es + [e])[1..] == es[1..] + [e];
    }
  }

  lemma {:induction false} ClientEventsSnoc(es: seq<Event>, e: Event)
    ensures ClientEvents(es + [e]) == ClientEvents(es) + (if e.Client? then [e.e] else [])
  {
    if es == [] {
      assert es + [e] == [e] && [e][1..] == [];
    } else {
      ClientEventsSnoc(es[1..], e);
      assert (es + [e])[1..] == es[1..] + [e];
    }
  }

  lemma {:induction false} ServerEventsSnoc(es: seq<Event>, e: Event)
    ensures ServerEvents(es + [e]) == ServerEvents(es) + (if e.Server? then [e.e] else [])
  {
    if es == [] {
      assert es + [e] == [e] && [e][1..] == [];
    } else {
      ServerEventsSnoc(es[1..], e);
      assert (es + [e])[1..] == es[1..] + [e];
    }
  }

  /** The leg is in the client process. */
  predicate OnClient(d: Direction, leg: Leg)
  {
    d.Forth? == leg.FirstLeg?
  }

  function PartOf(s: State, e: Event, d: Direction, leg: Leg): seq<F.Event>
  {
    if OnClient(d, leg) then (if e.Client? then C.Part(s.client, e.e, WayOf(d)) else [])
    else (if e.Server? then C.Part(s.server, e.e, WayOf(d)) else [])
  }

  lemma ClientTraceSnoc(es: seq<Event>, e: Event, d: Direction, leg: Leg)
    requires CanRun(NewTunnel(), es) && Enabled(Exec(NewTunnel(), es), e) && CanRun(NewTunnel(), es + [e])
    requires OnClient(d, leg)
    ensures LegTrace(es + [e], d, leg) == LegTrace(es, d, leg) + PartOf(Exec(NewTunnel(), es), e, d, leg)
  {
    ClientEventsSnoc(es, e);
    ClientRuns(NewTunnel(), es);
    if e.Client? {
      C.TraceSnoc(C.NewConn(), ClientEvents(es), e.e, WayOf(d));
    } else {
      assert ClientEvents(es + [e]) == ClientEvents(es);
    }
  }

  lemma ServerTraceSnoc(es: seq<Event>, e: Event, d: Direction, leg: Leg)
    requires CanRun(NewTunnel(), es) && Enabled(Exec(NewTunnel(), es), e) && CanRun(NewTunnel(), es + [e])
    requires !OnClient(d, leg)
    ensures LegTrace(es + [e], d, leg) == LegTrace(es, d, leg) + PartOf(Exec(NewTunnel(), es), e, d, leg)
  {
    ServerEventsSnoc(es, e);
    ServerRuns(NewTunnel(), es);
    if e.Server? {
      C.TraceSnoc(C.NewConn(), ServerEvents(es), e.e, WayOf(d));
    } else {
      assert ServerEvents(es + [e]) == ServerEvents(es);
    }
  }

  lemma TraceSnoc(es: seq<Event>, e: Event, d: Direction, leg: Leg)
    requires CanRun(NewTunnel(), es) && Enabled(Exec(NewTunnel(), es), e) && CanRun(NewTunnel(), es + [e])
    ensures LegTrace(es + [e], d, leg) == LegTrace(es, d, leg) + PartOf(Exec(NewTunnel(), es), e, d, leg)
  {
    if OnClient(d, leg) { ClientTraceSnoc(es, e, d, leg); } else { ServerTraceSnoc(es, e, d, leg); }
  }

  function Extend(r: Run, e: Event): Run
    requires Enabled(r.s, e)
  {
    Run(r.d, r.es + [e], Next(r.s, e),
        r.first + PartOf(r.s, e, r.d, FirstLeg), r.second + PartOf(r.s, e, r.d, SecondLeg))
  }

  ghost predicate Happens(r: Run)
  {
    && CanRun(NewTunnel(), r.es) && Exec(NewTunnel(), r.es) == r.s
    && LegTrace(r.es, r.d, FirstLeg) == r.first && LegTrace(r.es, r.d, SecondLeg) == r.second
  }

  lemma ExtendHappens(r: Run, e: Event)
    requires Happens(r) && Enabled(r.s, e)
    ensures Happens(Extend(r, e))
  {
    RunSnoc(NewTunnel(), r.es, e);
    TraceSnoc(r.es, e, r.d, FirstLeg);
    TraceSnoc(r.es, e, r.d, SecondLeg);
  }

  // The constructions below are for any property `p` of runs that every step keeps; `Happens` is one.

  ghost predicate Kept(p: Run -> bool)
  {
    forall r: Run, e: Event :: p(r) && Enabled(r.s, e) ==> p(Extend(r, e))
  }

  /** A forwarder run to end-of-file that has read exactly `link`. */
  ghost predicate Reads(fs: seq<F.Event>, link: Bytes)
  {
    F.CanRun(F.NewHop(), fs) && F.RanToEof(F.Exec(F.NewHop(), fs)) && Flat(F.Exec(F.NewHop(), fs).got) == link
  }

  /** The forwarder after `k` steps of such a run. */
  ghost function After(fs: seq<F.Event>, link: Bytes, k: nat): F.Hop
    requires Reads(fs, link) && k <= |fs|
  {
    F.RunPrefix(F.NewHop(), fs, k);
    F.Exec(F.NewHop(), fs[..k])
  }

  /** Every step of such a run is allowed on the closed link. */
  lemma StepIsFed(fs: seq<F.Event>, link: Bytes, k: nat)
    requires Reads(fs, link) && k < |fs|
    ensures var h := After(fs, link, k);
            && F.Enabled(h, fs[k]) && !fs[k].Cancel? && After(fs, link, k + 1) == F.Next(h, fs[k])
            && Feeds(link, true, h, fs[k])
  {
    F.RunPrefix(F.NewHop(), fs, k);
    F.RunPrefix(F.NewHop(), fs, k + 1);
    F.CancelIsKept(F.NewHop(), fs);
    var h' := After(fs, link, k + 1);
    F.GotGrows(h', fs[k + 1..]);
    FlatPrefix(h'.got, F.Exec(h', fs[k + 1..]).got);
    if fs[k].Read? { FlatSnoc(After(fs, link, k).got, fs[k].data); }
  }

  /** One step of a forwarder on a closed link. */
  ghost predicate Fed(link: Bytes, h: F.Hop, f: F.Event, h': F.Hop)
  {
    F.Enabled(h, f) && !f.Cancel? && Feeds(link, true, h, f) && h' == F.Next(h, f)
  }

  /** The states `hs` that the steps `fs` lead through. */
  ghost predicate Walk(fs: seq<F.Event>, link: Bytes, hs: seq<F.Hop>)
  {
    |hs| == |fs| + 1 && hs[0] == F.NewHop() && forall k :: 0 <= k < |fs| ==> Fed(link, hs[k], fs[k], hs[k + 1])
  }

  lemma WalkOf(fs: seq<F.Event>, link: Bytes) returns (hs: seq<F.Hop>)
    requires Reads(fs, link)
    ensures Walk(fs, link, hs) && hs[|fs|] == F.Exec(F.NewHop(), fs)
  {
    hs := seq(|fs| + 1, k requires 0 <= k <= |fs| => After(fs, link, k));
    forall k | 0 <= k < |fs|
      ensures Fed(link, hs[k], fs[k], hs[k + 1])
    {
      StepIsFed(fs, link, k);
    }
    assert fs[..0] == [] && fs[..|fs|] == fs;
  }

  // The process that the direction starts in (`near`) and the other one (`far`).

  function Near(s: State, d: Direction): C.Conn
  {
    if d.Forth? then s.client else s.server
  }

  function Far(s: State, d: Direction): C.Conn
  {
    if d.Forth? then s.server else s.client
  }

  function WithNear(s: State, d: Direction, c: C.Conn): State
  {
    if d.Forth? then s.(client := c) else s.(server := c)
  }

  function WithFar(s: State, d: Direction, c: C.Conn): State
  {
    if d.Forth? then s.(server := c) else s.(client := c)
  }

  function AtNear(d: Direction, e: C.Event): Event
  {
    if d.Forth? then Client(e) else Server(e)
  }

  function AtFar(d: Direction, e: C.Event): Event
  {
    if d.Forth? then Server(e) else Client(e)
  }

  /** A connection's hop for the direction, and its other hop. */
  function HopIn(c: C.Conn, d: Direction): F.Hop
  {
    if d.Forth? then c.up else c.down
  }

  function OtherIn(c: C.Conn, d: Direction): F.Hop
  {
    if d.Forth? then c.down else c.up
  }

  function WithHop(c: C.Conn, d: Direction, h: F.Hop): C.Conn
  {
    if d.Forth? then c.(up := h) else c.(down := h)
  }

  function WithOther(c: C.Conn, d: Direction, h: F.Hop): C.Conn
  {
    if d.Forth? then c.(down := h) else c.(up := h)
  }

  /** The near process has closed the link between the processes. */
  predicate NearClosed(s: State, d: Direction)
  {
    if d.Forth? then s.client.openedClosed else s.server.acceptedClosed
  }

  /** An event of the near connection that is no step of the direction's hop. */
  lemma NearThen(p: Run -> bool, r: Run, e: C.Event) returns (r': Run)
    requires Kept(p) && p(r) && C.Enabled(Near(r.s, r.d), e)
    requires if r.d.Forth? then !e.Up? else !e.Down?
    requires (e.Up? || e.Down?) ==> !e.e.Read? && !e.e.EndRead?
    requires e.WaitReturns? ==> HopIn(Near(r.s, r.d), r.d).ended
    ensures p(r') && r'.d == r.d && r'.first == r.first && r'.second == r.second
    ensures r'.s == WithNear(r.s, r.d, C.Next(Near(r.s, r.d), e))
  {
    r' := Extend(r, AtNear(r.d, e));
  }

  lemma NearStep(p: Run -> bool, r: Run, f: F.Event, h: F.Hop) returns (r': Run)
    requires Kept(p) && p(r) && Near(r.s, r.d).connected && InputClosed(r.s, r.d)
    requires Fed(Input(r.s, r.d), HopIn(Near(r.s, r.d), r.d), f, h)
    ensures p(r') && r'.d == r.d && r'.s == WithNear(r.s, r.d, WithHop(Near(r.s, r.d), r.d, h))
    ensures r'.first == r.first + [f] && r'.second == r.second
  {
    r' := Extend(r, AtNear(r.d, if r.d.Forth? then C.Up(f) else C.Down(f)));
  }

  lemma FarStep(p: Run -> bool, r: Run, f: F.Event, h: F.Hop) returns (r': Run)
    requires Kept(p) && p(r) && Far(r.s, r.d).connected && NearClosed(r.s, r.d)
    requires Fed(Flat(HopIn(Near(r.s, r.d), r.d).written), HopIn(Far(r.s, r.d), r.d), f, h)
    ensures p(r') && r'.d == r.d && r'.s == WithFar(r.s, r.d, WithHop(Far(r.s, r.d), r.d, h))
    ensures r'.second == r.second + [f] && r'.first == r.first
  {
    r' := Extend(r, AtFar(r.d, if r.d.Forth? then C.Up(f) else C.Down(f)));
  }

  lemma {:induction false} NearSteps(p: Run -> bool, r: Run, fs: seq<F.Event>, hs: seq<F.Hop>, k: nat) returns (r': Run)
    requires Kept(p) && p(r) && InputClosed(r.s, r.d) && Walk(fs, Input(r.s, r.d), hs) && k <= |fs|
    requires Near(r.s, r.d).connected && HopIn(Near(r.s, r.d), r.d) == F.NewHop()
    ensures p(r') && r'.d == r.d && r'.s == WithNear(r.s, r.d, WithHop(Near(r.s, r.d), r.d, hs[k]))
    ensures r'.first == r.first + fs[..k] && r'.second == r.second
    decreases k
  {
    if k == 0 {
      r' := r;
    } else {
      r' := NearSteps(p, r, fs, hs, k - 1);
      r' := NearStep(p, r', fs[k - 1], hs[k]);
      assert r.first + fs[..k] == (r.first + fs[..k - 1]) + [fs[k - 1]];
    }
  }

  lemma {:induction false} FarSteps(p: Run -> bool, r: Run, fs: seq<F.Event>, hs: seq<F.Hop>, k: nat) returns (r': Run)
    requires Kept(p) && p(r) && NearClosed(r.s, r.d) && k <= |fs|
    requires Walk(fs, Flat(HopIn(Near(r.s, r.d), r.d).written), hs)
    requires Far(r.s, r.d).connected && HopIn(Far(r.s, r.d), r.d) == F.NewHop()
    ensures p(r') && r'.d == r.d && r'.s == WithFar(r.s, r.d, WithHop(Far(r.s, r.d), r.d, hs[k]))
    ensures r'.second == r.second + fs[..k] && r'.first == r.first
    decreases k
  {
    if k == 0 {
      r' := r;
    } else {
      r' := FarSteps(p, r, fs, hs, k - 1);
      r' := FarStep(p, r', fs[k - 1], hs[k]);
      assert r.second + fs[..k] == (r.second + fs[..k - 1]) + [fs[k - 1]];
    }
  }

  function Opened(): C.Conn
  {
    C.NewConn().(h := C.Waiting, connected := true)
  }

  /** The writing QEMU has written and closed, and both processes have opened their second sockets. */
  lemma BothOpen(p: Run -> bool, d: Direction, input: Bytes) returns (r: Run)
    requires Kept(p) && p(Run(d, [], NewTunnel(), [], []))
    ensures p(r) && r.d == d && r.first == [] && r.second == []
    ensures Input(r.s, d) == input && InputClosed(r.s, d) && r.s.client == r.s.server == Opened()
  {
    r := Run(d, [], NewTunnel(), [], []);
    r := Extend(r, if d.Forth? then SrcWrites(input) else DstWrites(input));
    r := Extend(r, if d.Forth? then SrcCloses else DstCloses);
    r := Extend(r, Client(C.OpenSucceeds));
    r := Extend(r, Server(C.OpenSucceeds));
  }

  lemma OtherIsCancelled(p: Run -> bool, r: Run) returns (r': Run)
    requires Kept(p) && p(r) && HopIn(Near(r.s, r.d), r.d).ended
    requires Near(r.s, r.d) == WithHop(Opened(), r.d, HopIn(Near(r.s, r.d), r.d))
    ensures p(r') && r'.d == r.d && r'.first == r.first && r'.second == r.second
    ensures r'.s == WithNear(r.s, r.d, Near(r'.s, r.d))
    ensures Near(r'.s, r.d) == WithOther(Near(r.s, r.d), r.d, F.NewHop().(cancelled := true)).(h := C.Joining)
  {
    r' := NearThen(p, r, C.WaitReturns);
  }

  lemma OtherStep(p: Run -> bool, r: Run, f: F.Event) returns (r': Run)
    requires Kept(p) && p(r) && Near(r.s, r.d).connected && F.Enabled(OtherIn(Near(r.s, r.d), r.d), f)
    requires f.CancelRead? || f.CancelWrite? || f.Return?
    ensures p(r') && r'.d == r.d && r'.first == r.first && r'.second == r.second
    ensures var c := Near(r.s, r.d);
            r'.s == WithNear(r.s, r.d, WithOther(c, r.d, F.Next(OtherIn(c, r.d), f)))
  {
    r' := NearThen(p, r, if r.d.Forth? then C.Down(f) else C.Up(f));
  }

  /** The steps by which a forwarder ends that was cancelled before its tasks started. */
  lemma OtherEnds(p: Run -> bool, r: Run) returns (r': Run)
    requires Kept(p) && p(r) && Near(r.s, r.d).connected
    requires OtherIn(Near(r.s, r.d), r.d) == F.NewHop().(cancelled := true)
    ensures p(r') && r'.d == r.d && r'.first == r.first && r'.second == r.second
    ensures var h := OtherIn(Near(r'.s, r.d), r.d);
            h.ended && r'.s == WithNear(r.s, r.d, WithOther(Near(r.s, r.d), r.d, h))
  {
    r' := OtherStep(p, r, F.CancelRead);
    r' := OtherStep(p, r', F.CancelWrite);
    r' := OtherStep(p, r', F.Return);
  }

  lemma NearCloses(p: Run -> bool, r: Run) returns (r': Run)
    requires Kept(p) && p(r) && Near(r.s, r.d).h.Joining? && Near(r.s, r.d).connected
    requires Near(r.s, r.d).up.ended && Near(r.s, r.d).down.ended
    ensures p(r') && r'.d == r.d && r'.first == r.first && r'.second == r.second
    ensures r'.s == WithNear(r.s, r.d, Near(r'.s, r.d)) && NearClosed(r'.s, r.d)
    ensures HopIn(Near(r'.s, r.d), r.d) == HopIn(Near(r.s, r.d), r.d)
  {
    r' := NearThen(p, r, C.JoinReturns);
    r' := NearThen(p, r', C.OpenedWaitClosed(false));
  }

  lemma NearIsDone(p: Run -> bool, d: Direction, input: Bytes, fs: seq<F.Event>) returns (r: Run)
    requires Kept(p) && p(Run(d, [], NewTunnel(), [], [])) && Reads(fs, input)
    ensures p(r) && r.d == d && r.first == fs && r.second == [] && Input(r.s, d) == input
    ensures NearClosed(r.s, d) && HopIn(Near(r.s, d), d) == F.Exec(F.NewHop(), fs) && Far(r.s, d) == Opened()
  {
    r := BothOpen(p, d, input);
    var hs := WalkOf(fs, input);
    r := NearSteps(p, r, fs, hs, |fs|);
    r := OtherIsCancelled(p, r);
    r := OtherEnds(p, r);
    r := NearCloses(p, r);
  }

  lemma FarIsDone(p: Run -> bool, r: Run, fs: seq<F.Event>) returns (r': Run)
    requires Kept(p) && p(r) && NearClosed(r.s, r.d) && Far(r.s, r.d) == Opened() && r.second == []
    requires Reads(fs, Flat(HopIn(Near(r.s, r.d), r.d).written))
    ensures p(r') && r'.d == r.d && r'.first == r.first && r'.second == fs
    ensures r'.s == WithFar(r.s, r.d, WithHop(Far(r.s, r.d), r.d, F.Exec(F.NewHop(), fs)))
  {
    var hs := WalkOf(fs, Flat(HopIn(Near(r.s, r.d), r.d).written));
    r' := FarSteps(p, r, fs, hs, |fs|);
  }

  lemma HappensIsKept()
    ensures Kept((r: Run) => Happens(r))
  {
    forall r: Run, e: Event | Happens(r) && Enabled(r.s, e)
      ensures Happens(Extend(r, e))
    {
      ExtendHappens(r, e);
    }
  }

  /** Any two forwarder runs that fit together are the two legs of some run of the tunnel, in either direction. */
  lemma LegsFit(d: Direction, input: Bytes, first: seq<F.Event>, second: seq<F.Event>) returns (es: seq<Event>)
    requires Reads(first, input) && Reads(second, Flat(F.Exec(F.NewHop(), first).written))
    ensures CanRun(NewTunnel(), es)
    ensures LegTrace(es, d, FirstLeg) == first && LegTrace(es, d, SecondLeg) == second
    ensures var s := Exec(NewTunnel(), es);
            && Complete(s, d) && Input(s, d) == input
            && Output(s, d) == Flat(F.Exec(F.NewHop(), second).written)
  {
    HappensIsKept();
    var p := (r: Run) => Happens(r);
    assert p(Run(d, [], NewTunnel(), [], []));
    var r := NearIsDone(p, d, input, first);
    r := FarIsDone(p, r, second);
    es := r.es;
  }

  /** Both legs run as asyncio runs them, and everything has arrived when both have run to end-of-file. */
  ghost predicate DeliversAll(es: seq<Event>, d: Direction, limit: nat, input: Bytes)
  {
    CanRun(NewTunnel(), es) && FifoLegs(es, d, limit) &&
    var s := Exec(NewTunnel(), es);
    Complete(s, d) && Input(s, d) == input && Output(s, d) == input
  }

  /** Under asyncio's schedule the tunnel can deliver any data completely, in either direction. */
  lemma CanDeliver(d: Direction, input: Bytes, limit: nat) returns (es: seq<Event>)
    requires limit >= 1
    ensures DeliversAll(es, d, limit, input)
  {
    var run := L.CanForward(limit, input);
    L.HopRuns(L.New(limit), run);
    var fs := L.HopEvents(run);
    es := LegsFit(d, input, fs, fs);
    assert FifoLegs(es, d, limit);
  }

  /** A run that ends at end-of-file on both hops and has not forwarded everything. */
  ghost predicate LosesAtEof(limit: nat, es: seq<Event>, d: Direction)
  {
    CanRun(NewTunnel(), es) && FifoLegs(es, d, limit) &&
    var s := Exec(NewTunnel(), es);
    Complete(s, d) && Output(s, d) != Input(s, d)
  }

  lemma CanLose(limit: nat, d: Direction) returns (es: seq<Event>)
    requires !L.SafeLimit(limit)
    ensures LosesAtEof(limit, es, d)
  {
    var run := L.CanLose(limit);
    L.HopRuns(L.New(limit), run);
    var first := L.HopEvents(run);
    var h := F.Exec(F.NewHop(), first);
    var run' := L.CanForward(limit, Flat(h.written));
    L.HopRuns(L.New(limit), run');
    es := LegsFit(d, Flat(h.got), first, L.HopEvents(run'));
    assert FifoLegs(es, d, limit);
  }

  /** Exactly which stream-buffer limits make the tunnel lose data although everything ends at end-of-file. */
  lemma LosesIffUnsafe(limit: nat, d: Direction)
    ensures (exists es :: LosesAtEof(limit, es, d)) <==> limit > 3964928
  {
    if L.SafeLimit(limit) {
      forall es | LosesAtEof(limit, es, d)
        ensures false
      {
        ForwardsAllUnderFifo(es, d, limit);
      }
    } else {
      var es := CanLose(limit, d);
    }
  }
}
