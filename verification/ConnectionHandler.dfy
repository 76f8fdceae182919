// One proxied connection. The client and the server run the same handler on mirrored sockets: an
// accepted socket and a socket opened for it. `up` forwards accepted -> opened, `down` opened -> accepted.
module ConnectionHandler {
  import opened Chunks
  import F = Forwarder

  /** `ClosingOpened`, `ClosingAccepted`: inside `wait_closed` of that socket's writer. */
  datatype HandlerPc = Opening | Waiting | Joining | ClosingOpened | ClosingAccepted | Exited

  /** `raised`: `wait_closed` of the opened socket raised, which leaves the `finally` block. */
  datatype Conn = Conn(up: F.Hop, down: F.Hop, h: HandlerPc, connected: bool,
                       openedClosed: bool, acceptedClosed: bool, raised: bool)

  datatype Event = OpenSucceeds | OpenFails
                 | Up(e: F.Event) | Down(e: F.Event)
                 | WaitReturns | JoinReturns
                 | OpenedWaitClosed(raises: bool) | AcceptedWaitClosed(raises: bool)

  function NewConn(): Conn
  {
    Conn(F.NewHop(), F.NewHop(), Opening, false, false, false, false)
  }

  predicate Enabled(c: Conn, e: Event)
  {
    match e
    case OpenSucceeds => c.h.Opening?
    case OpenFails => c.h.Opening?
    case Up(e) => c.connected && !e.Cancel? && F.Enabled(c.up, e)
    case Down(e) => c.connected && !e.Cancel? && F.Enabled(c.down, e)
    case WaitReturns => c.h.Waiting? && (c.up.ended || c.down.ended) && CanCancel(c.up) && CanCancel(c.down)
    case JoinReturns => c.h.Joining? && c.up.ended && c.down.ended
    case OpenedWaitClosed(_) => c.h.ClosingOpened?
    case AcceptedWaitClosed(_) => c.h.ClosingAccepted?
  }

  /** `wait` returns to the handler while the tasks of a pending forwarder are suspended. */
  predicate CanCancel(h: F.Hop)
  {
    h.ended || F.Enabled(h, F.Cancel)
  }

  function CancelPending(h: F.Hop): F.Hop
    requires CanCancel(h)
  {
    if h.ended then h else F.Next(h, F.Cancel)
  }

  function Next(c: Conn, e: Event): Conn
    requires Enabled(c, e)
  {
    match e
    case OpenSucceeds => c.(h := Waiting, connected := true)
    case OpenFails => c.(h := ClosingAccepted, acceptedClosed := true)
    case Up(e) => c.(up := F.Next(c.up, e))
    case Down(e) => c.(down := F.Next(c.down, e))
    case WaitReturns =>
      if c.up.ended && c.down.ended then c.(h := ClosingOpened, openedClosed := true)
      else c.(h := Joining, up := CancelPending(c.up), down := CancelPending(c.down))
    case JoinReturns => c.(h := ClosingOpened, openedClosed := true)
    case OpenedWaitClosed(raises) =>
      if raises then c.(h := Exited, raised := true) else c.(h := ClosingAccepted, acceptedClosed := true)
    case AcceptedWaitClosed(_) => c.(h := Exited)
  }

  predicate CanRun(c: Conn, es: seq<Event>)
    decreases |es|
  {
    es == [] || (Enabled(c, es[0]) && CanRun(Next(c, es[0]), es[1..]))
  }

  function Exec(c: Conn, es: seq<Event>): Conn
    requires CanRun(c, es)
    decreases |es|
  {
    if es == [] then c else Exec(Next(c, es[0]), es[1..])
  }

  ghost predicate Valid(c: Conn)
  {
    F.Valid(c.up) && F.Valid(c.down) && Control(c)
  }

  /** `c.h` is past the point where the opened socket's writer is closed. */
  predicate PastClose(h: HandlerPc)
  {
    h.ClosingOpened? || h.ClosingAccepted? || h.Exited?
  }

  ghost predicate Control(c: Conn)
  {
    && (!c.connected ==> !c.up.ended && !c.down.ended && !c.up.cancelled && !c.down.cancelled)
    && (!c.connected ==> c.up == F.NewHop() && c.down == F.NewHop())
    && (c.connected ==> !c.h.Opening?) && (!c.connected ==> c.h.Opening? || c.h.ClosingAccepted? || c.h.Exited?)
    && (c.openedClosed <==> c.connected && PastClose(c.h))
    && (c.openedClosed ==> c.up.ended && c.down.ended)
    && (c.acceptedClosed <==> c.h.ClosingAccepted? || (c.h.Exited? && !c.raised))
    && (c.raised ==> c.h.Exited? && c.connected)
    && (c.up.cancelled ==> c.down.ended && !c.down.cancelled)
    && (c.down.cancelled ==> c.up.ended && !c.up.cancelled)
    && (c.h.Waiting? ==> !c.up.cancelled && !c.down.cancelled)
    && (c.h.Joining? ==> c.up.cancelled || c.down.cancelled)
  }

  lemma EndedIsFinal(h: F.Hop, e: F.Event)
    requires F.Valid(h) && h.ended
    ensures !F.Enabled(h, e)
  {
  }

  lemma NextKeepsFlags(h: F.Hop, e: F.Event)
    requires F.Enabled(h, e) && !e.Cancel?
    ensures F.Next(h, e).cancelled == h.cancelled && (h.ended ==> F.Next(h, e).ended)
  {
  }

  lemma NextKeepsControl(c: Conn, e: Event)
    requires Valid(c) && Enabled(c, e)
    ensures Control(Next(c, e))
  {
    match e {
      case Up(f) =>
        NextKeepsFlags(c.up, f);
        if c.up.ended { EndedIsFinal(c.up, f); }
      case Down(f) =>
        NextKeepsFlags(c.down, f);
        if c.down.ended { EndedIsFinal(c.down, f); }
      case _ =>
    }
  }

  lemma NextKeepsHops(c: Conn, e: Event)
    requires F.Valid(c.up) && F.Valid(c.down) && Enabled(c, e)
    ensures F.Valid(Next(c, e).up) && F.Valid(Next(c, e).down)
  {
    match e {
      case Up(f) => F.NextKeepsValid(c.up, f);
      case Down(f) => F.NextKeepsValid(c.down, f);
      case WaitReturns =>
        if !c.up.ended { F.NextKeepsValid(c.up, F.Cancel); }
        if !c.down.ended { F.NextKeepsValid(c.down, F.Cancel); }
      case _ =>
    }
  }

  lemma {:induction false} ExecKeepsValid(c: Conn, es: seq<Event>)
    requires Valid(c) && CanRun(c, es)
    ensures Valid(Exec(c, es))
    decreases |es|
  {
    if es == [] {
    } else {
      NextKeepsControl(c, es[0]);
      NextKeepsHops(c, es[0]);
      ExecKeepsValid(Next(c, es[0]), es[1..]);
    }
  }

  /** Both tasks of the forwarder have ended, and so has `forward_data` itself. */
  predicate Over(h: F.Hop)
  {
    h.ended && h.r.ReadDone? && h.w.WriteDone?
  }

  /**
   * Teardown, for every run of a handler. Both forwarders are over before either writer is closed. At
   * exit the opened socket's writer is closed, and the accepted one's is too unless the first
   * `wait_closed` raised. At most one direction was cancelled, and only after the other was over.
   */
  lemma Teardown(es: seq<Event>)
    requires CanRun(NewConn(), es)
    ensures var c := Exec(NewConn(), es);
            && (c.connected && (c.openedClosed || c.acceptedClosed) ==> Over(c.up) && Over(c.down))
            && (c.h.Exited? && c.connected ==> c.openedClosed)
            && (c.h.Exited? ==> (c.acceptedClosed <==> !c.raised))
            && (c.up.cancelled ==> Over(c.down) && !c.down.cancelled)
            && (c.down.cancelled ==> Over(c.up) && !c.up.cancelled)
            && (c.raised <==> OpenedWaitClosed(true) in es)
  {
    ExecKeepsValid(NewConn(), es);
    RaisedIff(NewConn(), es);
  }

  /** A handler raises out of its `finally` block exactly when the first `wait_closed` raises. */
  lemma {:induction false} RaisedIff(c: Conn, es: seq<Event>)
    requires CanRun(c, es)
    ensures Exec(c, es).raised <==> c.raised || OpenedWaitClosed(true) in es
    decreases |es|
  {
    if es == [] {
    } else {
      RaisedIff(Next(c, es[0]), es[1..]);
    }
  }

  /** What the attempt to open the second socket has led to. */
  predicate Outcome(c: Conn, succeeded: bool, failed: bool)
  {
    && !(succeeded && failed)
    && (c.connected <==> succeeded)
    && (c.h.Opening? <==> !succeeded && !failed)
    && (c.h.Opening? ==> !c.acceptedClosed && !c.openedClosed && !c.raised)
    && (failed ==> c.acceptedClosed && !c.openedClosed && !c.raised && (c.h.ClosingAccepted? || c.h.Exited?))
    && (!succeeded ==> c.up == F.NewHop() && c.down == F.NewHop())
  }

  lemma OutcomeStep(c: Conn, e: Event, succeeded: bool, failed: bool)
    requires Outcome(c, succeeded, failed) && Enabled(c, e)
    ensures Outcome(Next(c, e), succeeded || e.OpenSucceeds?, failed || e.OpenFails?)
  {
  }

  lemma {:induction false} OutcomeFrom(c: Conn, es: seq<Event>, succeeded: bool, failed: bool)
    requires Outcome(c, succeeded, failed) && CanRun(c, es)
    ensures Outcome(Exec(c, es), succeeded || OpenSucceeds in es, failed || OpenFails in es)
    decreases |es|
  {
    if es == [] {
    } else {
      OutcomeStep(c, es[0], succeeded, failed);
      OutcomeFrom(Next(c, es[0]), es[1..], succeeded || es[0].OpenSucceeds?, failed || es[0].OpenFails?);
    }
  }

  /**
   * The connection is forwarded exactly if the second socket could be opened. After a failed open nothing
   * has been forwarded, the accepted socket's writer is closed and no other, and only the end of that
   * close is left to happen.
   */
  lemma FailedOpenCloses(es: seq<Event>)
    requires CanRun(NewConn(), es)
    ensures var c := Exec(NewConn(), es);
            && (c.connected <==> OpenSucceeds in es)
            && (OpenFails in es ==>
                  && !c.connected && c.up == F.NewHop() && c.down == F.NewHop()
                  && c.acceptedClosed && !c.openedClosed
                  && (c.h.ClosingAccepted? || c.h.Exited?)
                  && (forall e :: Enabled(c, e) ==> e.AcceptedWaitClosed? && Next(c, e).h.Exited?)
                  && (c.h.ClosingAccepted? ==> Enabled(c, AcceptedWaitClosed(false))))
  {
    OutcomeFrom(NewConn(), es, false, false);
  }

  // What one direction takes part in.

  datatype Way = Upward | Downward

  function Along(c: Conn, way: Way): F.Hop
  {
    if way.Upward? then c.up else c.down
  }

  /** The step of one direction's forwarder inside an event of the connection. */
  function Part(c: Conn, e: Event, way: Way): seq<F.Event>
  {
    match e
    case Up(f) => if way.Upward? then [f] else []
    case Down(f) => if way.Downward? then [f] else []
    case WaitReturns => if Along(c, way).ended then [] else [F.Cancel]
    case _ => []
  }

  function Trace(c: Conn, es: seq<Event>, way: Way): seq<F.Event>
    requires CanRun(c, es)
    decreases |es|
  {
    if es == [] then [] else Part(c, es[0], way) + Trace(Next(c, es[0]), es[1..], way)
  }

  lemma PartRuns(c: Conn, e: Event, way: Way)
    requires Enabled(c, e)
    ensures var part, h, h' := Part(c, e, way), Along(c, way), Along(Next(c, e), way);
            if part == [] then h' == h else part == [part[0]] && F.Enabled(h, part[0]) && h' == F.Next(h, part[0])
  {
  }

  lemma {:induction false} TraceRuns(c: Conn, es: seq<Event>, way: Way)
    requires CanRun(c, es)
    ensures F.CanRun(Along(c, way), Trace(c, es, way))
    ensures F.Exec(Along(c, way), Trace(c, es, way)) == Along(Exec(c, es), way)
    decreases |es|
  {
    if es == [] {
    } else {
      var part, later := Part(c, es[0], way), Trace(Next(c, es[0]), es[1..], way);
      PartRuns(c, es[0], way);
      TraceRuns(Next(c, es[0]), es[1..], way);
      if part == [] {
        assert part + later == later;
      } else {
        assert (part + later)[0] == part[0] && (part + later)[1..] == later;
      }
    }
  }

  /** Nothing cost this direction data: no eviction, no write that raised, no cancellation over queued chunks. */
  predicate CleanWay(es: seq<Event>, way: Way)
    requires CanRun(NewConn(), es)
  {
    TraceRuns(NewConn(), es, way);
    F.Clean(F.NewHop(), Trace(NewConn(), es, way))
  }

  /**
   * A forwarder that is over has written everything it read if and only if its direction was clean; by
   * the time the first writer is closed this holds of both directions.
   */
  lemma DeliveredIffClean(es: seq<Event>, way: Way)
    requires CanRun(NewConn(), es)
    ensures var c := Exec(NewConn(), es); var h := Along(c, way);
            && (c.openedClosed ==> h.ended)
            && (h.q.lost == [] ==> h.written <= h.got)
            && (h.ended ==> (h.written == h.got <==> CleanWay(es, way)))
            && (h.ended ==> (Size(h.written) == Size(h.got) <==> CleanWay(es, way)))
  {
    ExecKeepsValid(NewConn(), es);
    TraceRuns(NewConn(), es, way);
    var h := Along(Exec(NewConn(), es), way);
    if h.ended { F.DeliversIffClean(Trace(NewConn(), es, way)); }
    if h.q.lost == [] { F.PrefixWithoutLoss(h); }
  }

  lemma {:induction false} RunSnoc(c: Conn, es: seq<Event>, e: Event)
    requires CanRun(c, es) && Enabled(Exec(c, es), e)
    ensures CanRun(c, es + [e]) && Exec(c, es + [e]) == Next(Exec(c, es), e)
    decreases |es|
  {
    if es == [] {
      assert es + [e] == [e] && [e][1..] == [];
    } else {
      RunSnoc(Next(c, es[0]), es[1..], e);
      assert (es + [e])[1..] == es[1..] + [e];
    }
  }

  lemma {:induction false} TraceSnoc(c: Conn, es: seq<Event>, e: Event, way: Way)
    requires CanRun(c, es) && Enabled(Exec(c, es), e)
    ensures CanRun(c, es + [e]) && Trace(c, es + [e], way) == Trace(c, es, way) + Part(Exec(c, es), e, way)
    decreases |es|
  {
    RunSnoc(c, es, e);
    if es == [] {
      assert es + [e] == [e] && [e][1..] == [] && Part(c, e, way) + [] == Part(c, e, way);
    } else {
      var now, rest, last := Part(c, es[0], way), Next(c, es[0]), Part(Exec(c, es), e, way);
      TraceSnoc(rest, es[1..], e, way);
      assert (es + [e])[1..] == es[1..] + [e];
      assert now + (Trace(rest, es[1..], way) + last) == (now + Trace(rest, es[1..], way)) + last;
    }
  }

  /** Extends a run of a new connection by one event. */
  lemma Then(es: seq<Event>, c: Conn, e: Event) returns (es': seq<Event>, c': Conn)
    requires CanRun(NewConn(), es) && Exec(NewConn(), es) == c && Enabled(c, e)
    ensures CanRun(NewConn(), es') && Exec(NewConn(), es') == c' && c' == Next(c, e)
  {
    RunSnoc(NewConn(), es, e);
    es', c' := es + [e], Next(c, e);
  }

  /** A hop whose reader waits for data and whose writer waits for the queue. */
  function IdleHop(): F.Hop
  {
    F.NewHop().(r := F.Reading, w := F.Parked)
  }

  lemma UpIdles() returns (es: seq<Event>, c: Conn)
    ensures CanRun(NewConn(), es) && Exec(NewConn(), es) == c
    ensures c == NewConn().(h := Waiting, connected := true, up := IdleHop())
  {
    es, c := [], NewConn();
    es, c := Then(es, c, OpenSucceeds);
    es, c := Then(es, c, Up(F.StartRead));
    es, c := Then(es, c, Up(F.StartWrite));
    es, c := Then(es, c, Up(F.Park));
  }

  lemma DownReads() returns (es: seq<Event>, c: Conn)
    ensures CanRun(NewConn(), es) && Exec(NewConn(), es) == c
    ensures c.h.Waiting? && c.connected && !c.raised && c.up == IdleHop()
    ensures c.down == F.NewHop().(r := F.Reading, w := F.Running(false))
  {
    es, c := UpIdles();
    es, c := Then(es, c, Down(F.StartRead));
    es, c := Then(es, c, Down(F.StartWrite));
  }

  lemma DownEnds() returns (es: seq<Event>, c: Conn)
    ensures CanRun(NewConn(), es) && Exec(NewConn(), es) == c
    ensures c.h.Waiting? && c.connected && !c.raised && c.up == IdleHop() && c.down.ended
  {
    es, c := DownReads();
    es, c := Then(es, c, Down(F.EndRead(F.Eof)));
    es, c := Then(es, c, Down(F.Finish));
    es, c := Then(es, c, Down(F.Return));
  }

  /** A chunk is queued and the writer is notified, but the cancellation comes before it resumes. */
  lemma ChunkIsQueued() returns (es: seq<Event>, c: Conn)
    ensures CanRun(NewConn(), es) && Exec(NewConn(), es) == c
    ensures c.h.Joining? && c.connected && !c.raised && c.down.ended && c.up.cancelled && !c.up.ended
    ensures c.up.r.Reading? && c.up.w.Notified? && c.up.q.lost == [] && c.up.got == [[7]] && c.up.written == []
  {
    es, c := DownEnds();
    es, c := Then(es, c, Up(F.Read([7])));
    es, c := Then(es, c, WaitReturns);
    assert [] + [[7]] == [[7]];
  }

  lemma ChunkIsAbandoned() returns (es: seq<Event>, c: Conn)
    ensures CanRun(NewConn(), es) && Exec(NewConn(), es) == c
    ensures c.h.Joining? && c.connected && !c.raised && c.down.ended && c.up.ended
    ensures c.up.q.lost == [] && c.up.got == [[7]] && c.up.written == []
  {
    es, c := ChunkIsQueued();
    es, c := Then(es, c, Up(F.CancelRead));
    es, c := Then(es, c, Up(F.CancelWrite));
    es, c := Then(es, c, Up(F.Return));
  }

  /** A direction that is not clean: the handler exits normally, no queue is full, a read chunk is not written. */
  lemma CancelledDirectionCanLoseData()
    ensures exists es :: CanRun(NewConn(), es) &&
              var c := Exec(NewConn(), es);
              c.h.Exited? && !c.raised && c.up.q.lost == [] && c.up.got == [[7]] && c.up.written == []
  {
    var es, c := ChunkIsAbandoned();
    es, c := Then(es, c, JoinReturns);
    es, c := Then(es, c, OpenedWaitClosed(false));
    es, c := Then(es, c, AcceptedWaitClosed(false));
  }

  /** The accepted socket's writer can be left open: the opened socket's `wait_closed` raises first. */
  lemma AcceptedCanStayOpen()
    ensures exists es :: CanRun(NewConn(), es) && OpenedWaitClosed(true) in es &&
              var c := Exec(NewConn(), es);
              c.h.Exited? && c.openedClosed && !c.acceptedClosed
  {
    var es, c := ChunkIsAbandoned();
    es, c := Then(es, c, JoinReturns);
    es, c := Then(es, c, OpenedWaitClosed(true));
    Teardown(es);
  }

  /** After the close of the opened socket nothing is read or written in either direction. */
  lemma {:induction false} NothingAfterClose(c: Conn, es: seq<Event>)
    requires Valid(c) && c.openedClosed && CanRun(c, es)
    ensures Exec(c, es).up == c.up && Exec(c, es).down == c.down && Exec(c, es).openedClosed
    decreases |es|
  {
    if es == [] {
    } else {
      match es[0] {
        case Up(f) => EndedIsFinal(c.up, f);
        case Down(f) => EndedIsFinal(c.down, f);
        case _ =>
      }
      NextKeepsControl(c, es[0]);
      NextKeepsHops(c, es[0]);
      NothingAfterClose(Next(c, es[0]), es[1..]);
    }
  }

  function Rank(c: Conn): nat
  {
    F.Rank(c.up) + F.Rank(c.down) +
    (match c.h case Exited => 0 case ClosingAccepted => 1 case ClosingOpened => 2 case _ => 3)
  }

  /** The end of a forwarder has been seen, or the open has failed. */
  predicate TearingDown(c: Conn)
  {
    c.h.Joining? || PastClose(c.h)
  }

  lemma TeardownStep(c: Conn, e: Event)
    requires Valid(c) && TearingDown(c) && Enabled(c, e)
    ensures TearingDown(Next(c, e)) && Rank(Next(c, e)) < Rank(c)
  {
    match e {
      case Up(f) => if c.up.ended { EndedIsFinal(c.up, f); } else { F.SettlingStep(c.up, f); }
      case Down(f) => if c.down.ended { EndedIsFinal(c.down, f); } else { F.SettlingStep(c.down, f); }
      case _ =>
    }
  }

  lemma HopCanGoOn(c: Conn, way: Way)
    requires Valid(c) && c.connected && !Along(c, way).ended
    ensures exists e :: Enabled(c, e)
  {
    F.NeverStuck(Along(c, way));
    var f :| F.Enabled(Along(c, way), f) && !f.Cancel?;
    assert Enabled(c, if way.Upward? then Up(f) else Down(f));
  }

  /** A handler that has not exited can always go on. */
  lemma NeverStuck(c: Conn)
    requires Valid(c) && !c.h.Exited?
    ensures exists e :: Enabled(c, e)
  {
    match c.h {
      case Opening => assert Enabled(c, OpenSucceeds);
      case Waiting =>
        if !c.up.ended { HopCanGoOn(c, Upward); }
        else if !c.down.ended { HopCanGoOn(c, Downward); }
        else { assert Enabled(c, WaitReturns); }
      case Joining =>
        if !c.up.ended { HopCanGoOn(c, Upward); }
        else if !c.down.ended { HopCanGoOn(c, Downward); }
        else { assert Enabled(c, JoinReturns); }
      case ClosingOpened => assert Enabled(c, OpenedWaitClosed(false));
      case ClosingAccepted => assert Enabled(c, AcceptedWaitClosed(false));
    }
  }

  /** Once a forwarder's end has been seen, or the open has failed, every run is bounded and stops only at the exit. */
  lemma {:induction false} TeardownTerminates(c: Conn, es: seq<Event>)
    requires Valid(c) && TearingDown(c) && CanRun(c, es)
    ensures |es| <= Rank(c)
    ensures Exec(c, es).h.Exited? || exists e :: Enabled(Exec(c, es), e)
    decreases |es|
  {
    if es == [] {
      if !c.h.Exited? { NeverStuck(c); }
    } else {
      TeardownStep(c, es[0]);
      NextKeepsControl(c, es[0]);
      NextKeepsHops(c, es[0]);
      TeardownTerminates(Next(c, es[0]), es[1..]);
    }
  }
}
