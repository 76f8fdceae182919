// The WebSocket proxies' table of active connections, under any interleaving of connection handlers.
module Registry {
  type Id = string

  /**
   * The server stores a connection at once and removes it in a `finally` block. The client draws the id,
   * connects, then stores; its cleanup runs also when connecting failed, and deletes after two closes.
   */
  datatype Side = ServerSide | ClientSide

  /**
   * `Opening`: the client's id is drawn but not stored. `Connecting`, `Forwarding`: stored and at work.
   * `ClosingWs`, `ClosingUnix`: inside those `close` calls, for the connection of handler `conn`, which the
   * client's cleanup takes from the table. `Gone`: left normally. `Failed`: the client's cleanup raised,
   * in a `close` or because the key to delete was missing.
   */
  datatype Pc = Opening | Connecting | Forwarding | ClosingWs(conn: nat) | ClosingUnix(conn: nat) | Gone | Failed
  {
    /** Stored and not left. */
    predicate Live() {
      Connecting? || Forwarding? || ClosingWs? || ClosingUnix?
    }

    predicate Holds() {
      Live() || Failed?
    }
  }

  /** `stored`: the handler has put its connection into the table. */
  datatype Handler = Handler(id: Id, pc: Pc, stored: bool)

  /**
   * `active` maps an id to the handler whose connection info is stored there. `wsClosed`, `unixClosed`: the
   * handlers whose WebSocket has been closed and on whose Unix writer `close` has been called.
   */
  datatype State = State(side: Side, active: map<Id, nat>, handlers: map<nat, Handler>,
                         wsClosed: set<nat>, unixClosed: set<nat>)

  datatype Event = Begin(h: nat, id: Id)
                 | Registers(h: nat) | ConnectFails(h: nat)
                 | Connected(h: nat) | ForwardingEnds(h: nat) | WsCloses(h: nat)
                 | Leaves(h: nat)  // the normal end, and on the server every exception and cancellation
                 | CleanupRaises(h: nat)

  function NewRegistry(side: Side): State
  {
    State(side, map[], map[], {}, {})
  }

  predicate At(s: State, h: nat, pc: Pc)
  {
    h in s.handlers && s.handlers[h].pc == pc
  }

  predicate AtWs(s: State, h: nat)
  {
    h in s.handlers && s.handlers[h].pc.ClosingWs?
  }

  predicate AtUnix(s: State, h: nat)
  {
    h in s.handlers && s.handlers[h].pc.ClosingUnix?
  }

  predicate Enabled(s: State, e: Event)
  {
    match e
    case Begin(h, id) => h !in s.handlers
    case Registers(h) => At(s, h, Opening)
    case ConnectFails(h) => At(s, h, Opening)
    case Connected(h) => At(s, h, Connecting)
    case ForwardingEnds(h) => At(s, h, Forwarding)
    case WsCloses(h) => AtWs(s, h)
    case Leaves(h) => if s.side.ServerSide? then h in s.handlers && s.handlers[h].pc.Live() else AtUnix(s, h)
    case CleanupRaises(h) => s.side.ClientSide? && (AtWs(s, h) || AtUnix(s, h))
  }

  function Move(s: State, h: nat, pc: Pc): State
    requires h in s.handlers
  {
    s.(handlers := s.handlers[h := s.handlers[h].(pc := pc)])
  }

  /** The client's cleanup does nothing when the id is not in the table. */
  function StartCleanup(s: State, h: nat): State
    requires h in s.handlers
  {
    var id := s.handlers[h].id;
    Move(s, h, if id in s.active then ClosingWs(s.active[id]) else Gone)
  }

  /** The table without the id, which need not be there. */
  function Delete(active: map<Id, nat>, id: Id): map<Id, nat>
  {
    map x | x in active && x != id :: active[x]
  }

  function Next(s: State, e: Event): State
    requires Enabled(s, e)
  {
    match e
    case Begin(h, id) =>
      if s.side.ServerSide? then
        s.(active := s.active[id := h], handlers := s.handlers[h := Handler(id, Connecting, true)])
      else
        s.(handlers := s.handlers[h := Handler(id, Opening, false)])
    case Registers(h) =>
      var id := s.handlers[h].id;
      s.(active := s.active[id := h], handlers := s.handlers[h := Handler(id, Forwarding, true)])
    case ConnectFails(h) => StartCleanup(s, h)
    case Connected(h) => Move(s, h, Forwarding)
    case ForwardingEnds(h) =>
      if s.side.ServerSide? then Move(s, h, ClosingUnix(h)).(unixClosed := s.unixClosed + {h})
      else StartCleanup(s, h)
    case WsCloses(h) =>
      var conn := s.handlers[h].pc.conn;
      Move(s, h, ClosingUnix(conn)).(wsClosed := s.wsClosed + {conn}, unixClosed := s.unixClosed + {conn})
    case Leaves(h) =>
      var id := s.handlers[h].id;
      Move(s, h, if s.side.ServerSide? || id in s.active then Gone else Failed).(active := Delete(s.active, id))
    case CleanupRaises(h) => Move(s, h, Failed)
  }

  predicate CanRun(s: State, es: seq<Event>)
    decreases |es|
  {
    es == [] || (Enabled(s, es[0]) && CanRun(Next(s, es[0]), es[1..]))
  }

  function Exec(s: State, es: seq<Event>): State
    requires CanRun(s, es)
    decreases |es|
  {
    if es == [] then s else Exec(Next(s, es[0]), es[1..])
  }

  /**
   * Every handler between its registration and its normal end, hence also every cleanup, finds its own
   * connection under its id, and nothing else is in the table.
   */
  ghost predicate Exact(s: State)
  {
    && (forall h :: h in s.handlers && s.handlers[h].pc.Holds() ==>
          s.handlers[h].id in s.active && s.active[s.handlers[h].id] == h)
    && (forall id :: id in s.active ==>
          s.active[id] in s.handlers && s.handlers[s.active[id]].pc.Holds() && s.handlers[s.active[id]].id == id)
    && (s.side.ServerSide? ==> forall h :: h in s.handlers ==> !s.handlers[h].pc.Failed? && !s.handlers[h].pc.Opening?)
  }

  /** The guard that makes ids as good as unique: not in the table when stored, nor when connecting failed. */
  predicate FreshId(s: State, e: Event)
    requires Enabled(s, e)
  {
    match e
    case Begin(_, id) => s.side.ServerSide? ==> id !in s.active
    case Registers(h) => s.handlers[h].id !in s.active
    case ConnectFails(h) => s.handlers[h].id !in s.active
    case _ => true
  }

  predicate FreshIds(s: State, es: seq<Event>)
    requires CanRun(s, es)
    decreases |es|
  {
    es == [] || (FreshId(s, es[0]) && FreshIds(Next(s, es[0]), es[1..]))
  }

  ghost predicate AlwaysExact(s: State, es: seq<Event>)
    requires CanRun(s, es)
    decreases |es|
  {
    Exact(s) && (es == [] || AlwaysExact(Next(s, es[0]), es[1..]))
  }

  /** Storing over, or cleaning up, another handler's connection. */
  lemma CollisionBreaks(s: State, e: Event)
    requires Exact(s) && Enabled(s, e) && !FreshId(s, e)
    ensures !Exact(Next(s, e))
  {
    var id := if e.Begin? then e.id else s.handlers[e.h].id;
    var s', other := Next(s, e), s.active[id];
    assert other != e.h && other in s'.handlers && s'.handlers[other] == s.handlers[other];
    assert s'.handlers[e.h].id == id && s'.handlers[e.h].pc.Holds();
  }

  lemma LeavesKeepsExact(s: State, h: nat)
    requires Exact(s) && Enabled(s, Leaves(h))
    ensures Exact(Next(s, Leaves(h)))
  {
    assert s.handlers[h].id in s.active && s.active[s.handlers[h].id] == h;
  }

  lemma FreshKeepsExact(s: State, e: Event)
    requires Exact(s) && Enabled(s, e) && FreshId(s, e)
    ensures Exact(Next(s, e))
  {
    match e
    case Leaves(h) => LeavesKeepsExact(s, h);
    case _ =>
  }

  /**
   * The table is exact in every state of a run if and only if every id was fresh when it was stored and
   * when connecting under it failed, for any interleaving of handlers and every way they end.
   */
  lemma {:induction false} ExactIffFreshIds(s: State, es: seq<Event>)
    requires Exact(s) && CanRun(s, es)
    ensures AlwaysExact(s, es) <==> FreshIds(s, es)
    ensures FreshIds(s, es) ==> Exact(Exec(s, es))
    decreases |es|
  {
    if es == [] {
    } else if FreshId(s, es[0]) {
      FreshKeepsExact(s, es[0]);
      ExactIffFreshIds(Next(s, es[0]), es[1..]);
    } else {
      CollisionBreaks(s, es[0]);
    }
  }

  ghost function LiveIds(s: State): set<Id>
  {
    set h | h in s.handlers && s.handlers[h].pc.Live() :: s.handlers[h].id
  }

  lemma {:induction false} SideIsFixed(s: State, es: seq<Event>)
    requires CanRun(s, es)
    ensures Exec(s, es).side == s.side
    decreases |es|
  {
    if es == [] {
    } else {
      SideIsFixed(Next(s, es[0]), es[1..]);
    }
  }

  /** With fresh ids, the server's keys are exactly the ids of the handlers between registration and exit. */
  lemma ServerRegistry(es: seq<Event>)
    requires CanRun(NewRegistry(ServerSide), es) && FreshIds(NewRegistry(ServerSide), es)
    ensures Exec(NewRegistry(ServerSide), es).active.Keys == LiveIds(Exec(NewRegistry(ServerSide), es))
  {
    ExactIffFreshIds(NewRegistry(ServerSide), es);
    SideIsFixed(NewRegistry(ServerSide), es);
    var s := Exec(NewRegistry(ServerSide), es);
    forall id | id in s.active
      ensures id in LiveIds(s)
    {
      assert s.handlers[s.active[id]].pc.Live();
    }
  }

  ghost predicate SomeFailed(s: State)
  {
    exists h :: h in s.handlers && s.handlers[h].pc.Failed?
  }

  /**
   * On the client the same holds exactly while no cleanup has raised: an entry whose cleanup raised
   * stays in the table after its handler has ended.
   */
  lemma ClientRegistry(es: seq<Event>)
    requires CanRun(NewRegistry(ClientSide), es) && FreshIds(NewRegistry(ClientSide), es)
    ensures var s := Exec(NewRegistry(ClientSide), es);
            s.active.Keys == LiveIds(s) <==> !SomeFailed(s)
  {
    ExactIffFreshIds(NewRegistry(ClientSide), es);
    var s := Exec(NewRegistry(ClientSide), es);
    if h :| h in s.handlers && s.handlers[h].pc.Failed? {
      var id := s.handlers[h].id;
      assert id in s.active.Keys && id !in LiveIds(s);
    } else {
      forall id | id in s.active
        ensures id in LiveIds(s)
      {
        assert s.handlers[s.active[id]].pc.Live();
      }
    }
  }

  // Which connections are closed.

  /** What a client handler `h` has closed: its own two sockets, from the end of its cleanup's first close on. */
  predicate ClosesItself(h: nat, handler: Handler, closed: bool)
  {
    match handler.pc
    case Opening => !handler.stored && !closed
    case ClosingWs(conn) => handler.stored && !closed && conn == h
    case ClosingUnix(conn) => handler.stored && closed && conn == h
    case Gone => handler.stored <==> closed
    case Failed => handler.stored
    case _ => handler.stored && !closed
  }

  ghost predicate ClosesOwn(s: State)
  {
    && s.wsClosed == s.unixClosed && s.wsClosed <= s.handlers.Keys
    && forall h :: h in s.handlers ==> ClosesItself(h, s.handlers[h], h in s.wsClosed)
  }

  /** A step of one handler that closes at most its own sockets. */
  lemma OneHandlerMoves(s: State, s': State, h: nat)
    requires ClosesOwn(s) && s'.handlers.Keys == s.handlers.Keys + {h}
    requires forall g :: g in s.handlers && g != h ==> s'.handlers[g] == s.handlers[g]
    requires s'.wsClosed == s'.unixClosed && (s'.wsClosed == s.wsClosed || s'.wsClosed == s.wsClosed + {h})
    requires ClosesItself(h, s'.handlers[h], h in s'.wsClosed)
    ensures ClosesOwn(s')
  {
  }

  lemma FreshStepClosesItself(s: State, e: Event)
    requires s.side.ClientSide? && Exact(s) && ClosesOwn(s) && Enabled(s, e) && FreshId(s, e)
    ensures var s' := Next(s, e);
            && s'.handlers.Keys == s.handlers.Keys + {e.h}
            && s'.wsClosed == s'.unixClosed && (s'.wsClosed == s.wsClosed || s'.wsClosed == s.wsClosed + {e.h})
            && ClosesItself(e.h, s'.handlers[e.h], e.h in s'.wsClosed)
  {
    if !e.Begin? { assert ClosesItself(e.h, s.handlers[e.h], e.h in s.wsClosed); }
  }

  lemma FreshKeepsClosesOwn(s: State, e: Event)
    requires s.side.ClientSide? && Exact(s) && ClosesOwn(s) && Enabled(s, e) && FreshId(s, e)
    ensures ClosesOwn(Next(s, e))
  {
    FreshStepClosesItself(s, e);
    OneHandlerMoves(s, Next(s, e), e.h);
  }

  lemma {:induction false} ClosesOwnFrom(s: State, es: seq<Event>)
    requires s.side.ClientSide? && Exact(s) && ClosesOwn(s) && CanRun(s, es) && FreshIds(s, es)
    ensures ClosesOwn(Exec(s, es))
    decreases |es|
  {
    if es == [] {
    } else {
      FreshKeepsExact(s, es[0]);
      FreshKeepsClosesOwn(s, es[0]);
      ClosesOwnFrom(Next(s, es[0]), es[1..]);
    }
  }

  /**
   * With fresh ids no client cleanup ever closes the sockets of a connection that is still forwarding, and
   * a handler that has left normally has closed both of its sockets if and only if it had stored them.
   */
  lemma ClientClosesOwnSockets(es: seq<Event>, h: nat)
    requires CanRun(NewRegistry(ClientSide), es) && FreshIds(NewRegistry(ClientSide), es)
    requires h in Exec(NewRegistry(ClientSide), es).handlers
    ensures var s := Exec(NewRegistry(ClientSide), es); var handler := s.handlers[h];
            && (h in s.wsClosed <==> h in s.unixClosed)
            && (handler.pc.Opening? || handler.pc.Forwarding? ==> h !in s.wsClosed)
            && (handler.pc.Gone? ==> (h in s.wsClosed <==> handler.stored))
            && (handler.stored <==> Registers(h) in es)
  {
    ClosesOwnFrom(NewRegistry(ClientSide), es);
    StoredIffRegisters(NewRegistry(ClientSide), es, h);
    var s := Exec(NewRegistry(ClientSide), es);
    assert ClosesItself(h, s.handlers[h], h in s.wsClosed);
  }

  lemma {:induction false} StoredIffRegisters(s: State, es: seq<Event>, h: nat)
    requires s.side.ClientSide? && CanRun(s, es)
    ensures var s' := Exec(s, es);
            h in s'.handlers && s'.handlers[h].stored <==> (h in s.handlers && s.handlers[h].stored) || Registers(h) in es
    decreases |es|
  {
    if es == [] {
    } else {
      StoredIffRegisters(Next(s, es[0]), es[1..], h);
    }
  }

  /**
   * The server closes a handler's Unix socket if and only if its forwarding ended by itself: an exception
   * or a cancellation removes the entry and leaves the socket open.
   */
  lemma {:induction false} ServerClosesIffForwardingEnds(s: State, es: seq<Event>, h: nat)
    requires s.side.ServerSide? && CanRun(s, es)
    requires forall g :: g in s.handlers ==> !s.handlers[g].pc.ClosingWs? && !s.handlers[g].pc.Opening?
    ensures h in Exec(s, es).unixClosed <==> h in s.unixClosed || ForwardingEnds(h) in es
    decreases |es|
  {
    if es == [] {
    } else {
      ServerClosesIffForwardingEnds(Next(s, es[0]), es[1..], h);
    }
  }

  /** Some cleanup of the run raised: in a `close`, or at the deletion of a key that was gone. */
  predicate SomeCleanupRaises(s: State, es: seq<Event>)
    requires CanRun(s, es)
    decreases |es|
  {
    es != [] && (Raises(s, es[0]) || SomeCleanupRaises(Next(s, es[0]), es[1..]))
  }

  predicate Raises(s: State, e: Event)
    requires Enabled(s, e)
  {
    e.CleanupRaises? || (e.Leaves? && s.side.ClientSide? && s.handlers[e.h].id !in s.active)
  }

  lemma FailStep(s: State, e: Event)
    requires Enabled(s, e)
    ensures SomeFailed(Next(s, e)) <==> SomeFailed(s) || Raises(s, e)
  {
    var s' := Next(s, e);
    if Raises(s, e) { assert s'.handlers[e.h].pc.Failed?; }
    if h :| h in s.handlers && s.handlers[h].pc.Failed? { assert s'.handlers[h].pc.Failed?; }
    if h :| h in s'.handlers && s'.handlers[h].pc.Failed? {
      assert Raises(s, e) || (h in s.handlers && s.handlers[h].pc.Failed?);
    }
  }

  lemma {:induction false} FailedIffRaised(s: State, es: seq<Event>)
    requires CanRun(s, es)
    ensures SomeFailed(Exec(s, es)) <==> SomeFailed(s) || SomeCleanupRaises(s, es)
    decreases |es|
  {
    if es == [] {
    } else {
      FailStep(s, es[0]);
      FailedIffRaised(Next(s, es[0]), es[1..]);
    }
  }

  // Runs that break the table.

  lemma {:induction false} RunSnoc(s: State, es: seq<Event>, e: Event)
    requires CanRun(s, es) && Enabled(Exec(s, es), e)
    ensures CanRun(s, es + [e]) && Exec(s, es + [e]) == Next(Exec(s, es), e)
    ensures FreshIds(s, es + [e]) <==> FreshIds(s, es) && FreshId(Exec(s, es), e)
    decreases |es|
  {
    if es == [] {
      assert es + [e] == [e] && [e][1..] == [];
    } else {
      RunSnoc(Next(s, es[0]), es[1..], e);
      assert (es + [e])[1..] == es[1..] + [e];
    }
  }

  /** Extends a run of a new client by one event; `fresh`: all ids were fresh so far. */
  lemma Then(es: seq<Event>, s: State, e: Event) returns (es': seq<Event>, s': State)
    requires CanRun(NewRegistry(ClientSide), es) && Exec(NewRegistry(ClientSide), es) == s && Enabled(s, e)
    ensures CanRun(NewRegistry(ClientSide), es') && Exec(NewRegistry(ClientSide), es') == s' == Next(s, e)
    ensures FreshIds(NewRegistry(ClientSide), es') <==> FreshIds(NewRegistry(ClientSide), es) && FreshId(s, e)
  {
    RunSnoc(NewRegistry(ClientSide), es, e);
    es', s' := es + [e], Next(s, e);
  }

  /** The next normal step of a handler. */
  function Onward(s: State, h: nat): Event
    requires h in s.handlers
  {
    match s.handlers[h].pc
    case Opening => Registers(h)
    case Connecting => Connected(h)
    case Forwarding => ForwardingEnds(h)
    case ClosingWs(_) => WsCloses(h)
    case _ => Leaves(h)
  }

  function StepsLeft(pc: Pc): nat
  {
    match pc
    case Opening => 5
    case Connecting => 5
    case Forwarding => 4
    case ClosingWs(_) => 3
    case ClosingUnix(_) => 2
    case _ => 0
  }

  /** Handler `h` is on its normal way, and has closed what lies behind it. */
  ghost predicate OnItsWay(s: State, h: nat)
  {
    && Exact(s) && h in s.handlers && !s.handlers[h].pc.Failed?
    && match s.handlers[h].pc
       case Opening => s.side.ClientSide? && s.handlers[h].id !in s.active
       case Connecting => s.side.ServerSide?
       case Forwarding => true
       case ClosingWs(conn) => s.side.ClientSide? && conn == h
       case ClosingUnix(conn) => conn == h && h in s.unixClosed && (s.side.ClientSide? ==> h in s.wsClosed)
       case _ => h in s.unixClosed && (s.side.ClientSide? ==> h in s.wsClosed) && s.handlers[h].id !in s.active
  }

  /** What a step of `h` leaves alone. */
  ghost predicate OthersSame(s: State, s': State, h: nat)
    requires h in s.handlers
  {
    && s'.side == s.side && s'.handlers.Keys == s.handlers.Keys && s'.handlers[h].id == s.handlers[h].id
    && (forall g :: g in s.handlers && g != h ==> s'.handlers[g] == s.handlers[g])
    && (forall id :: id != s.handlers[h].id ==> (id in s'.active <==> id in s.active))
    && (forall id :: id != s.handlers[h].id && id in s.active ==> s'.active[id] == s.active[id])
  }

  lemma OnwardStep(s: State, h: nat)
    requires OnItsWay(s, h) && !s.handlers[h].pc.Gone?
    ensures Enabled(s, Onward(s, h)) && FreshId(s, Onward(s, h))
    ensures var s' := Next(s, Onward(s, h));
            OthersSame(s, s', h) && StepsLeft(s'.handlers[h].pc) < StepsLeft(s.handlers[h].pc)
  {
  }

  lemma OnwardStaysOnItsWay(s: State, h: nat)
    requires OnItsWay(s, h) && !s.handlers[h].pc.Gone? && Enabled(s, Onward(s, h)) && FreshId(s, Onward(s, h))
    ensures OnItsWay(Next(s, Onward(s, h)), h)
  {
    FreshKeepsExact(s, Onward(s, h));
  }

  /**
   * From every exact state a handler can go on to its normal end by steps of its own: its entry is then
   * removed, its sockets are closed, and every other handler and entry is as before.
   */
  lemma {:induction false} EveryHandlerCanLeave(s: State, h: nat) returns (es: seq<Event>)
    requires OnItsWay(s, h)
    ensures CanRun(s, es) && FreshIds(s, es)
    ensures var s' := Exec(s, es);
            && OthersSame(s, s', h) && At(s', h, Gone) && s'.handlers[h].id !in s'.active
            && h in s'.unixClosed && (s.side.ClientSide? ==> h in s'.wsClosed)
    decreases StepsLeft(s.handlers[h].pc)
  {
    if s.handlers[h].pc.Gone? {
      es := [];
    } else {
      OnwardStep(s, h);
      OnwardStaysOnItsWay(s, h);
      var rest := EveryHandlerCanLeave(Next(s, Onward(s, h)), h);
      es := [Onward(s, h)] + rest;
      assert es[1..] == rest;
    }
  }

  lemma OneRegisters(id: Id) returns (es: seq<Event>, s: State)
    ensures CanRun(NewRegistry(ClientSide), es) && Exec(NewRegistry(ClientSide), es) == s
    ensures s == State(ClientSide, map[id := 1], map[1 := Handler(id, Forwarding, true)], {}, {})
    ensures FreshIds(NewRegistry(ClientSide), es)
  {
    es, s := [], NewRegistry(ClientSide);
    es, s := Then(es, s, Begin(1, id));
    es, s := Then(es, s, Registers(1));
  }

  /** A cleanup that raises leaves its entry behind for ever, although every id was fresh. */
  lemma EntryCanLeak(id: Id)
    ensures exists es :: CanRun(NewRegistry(ClientSide), es) && FreshIds(NewRegistry(ClientSide), es) &&
              var s := Exec(NewRegistry(ClientSide), es);
              s.active == map[id := 1] && s.handlers == map[1 := Handler(id, Failed, true)] && LiveIds(s) == {}
  {
    var es, s := OneRegisters(id);
    es, s := Then(es, s, ForwardingEnds(1));
    es, s := Then(es, s, CleanupRaises(1));
  }

  /** A handler that never connected closes and deletes the live connection that has the same id. */
  lemma CollisionDeletesLiveEntry(id: Id)
    ensures exists es :: CanRun(NewRegistry(ClientSide), es) &&
              var s := Exec(NewRegistry(ClientSide), es);
              s.active == map[] && At(s, 1, Forwarding) && 1 in s.wsClosed && 1 in s.unixClosed && At(s, 2, Gone)
  {
    var es, s := OneRegisters(id);
    es, s := Then(es, s, Begin(2, id));
    es, s := Then(es, s, ConnectFails(2));
    es, s := Then(es, s, WsCloses(2));
    es, s := Then(es, s, Leaves(2));
  }

  /** The table as the proxy object changes it. */
  class ConnectionTable {
    var active_connections: map<Id, nat>
    const side: Side
    ghost var handlers: map<nat, Handler>
    ghost var wsClosed: set<nat>
    ghost var unixClosed: set<nat>

    ghost function Current(): State
      reads this
    {
      State(side, active_connections, handlers, wsClosed, unixClosed)
    }

    constructor (side: Side)
      ensures Current() == NewRegistry(side)
    {
      this.side := side;
      active_connections, handlers := map[], map[];
      wsClosed, unixClosed := {}, {};
    }

    /** The step in which a handler stores its connection. */
    ghost function StoreEvent(h: nat, connection_id: Id): Event
    {
      if side.ServerSide? then Begin(h, connection_id) else Registers(h)
    }

    /** The id then maps to the handler, also when it mapped to another one; all other ids are as before. */
    method Store(h: nat, connection_id: Id)
      requires Enabled(Current(), StoreEvent(h, connection_id))
      requires side.ClientSide? ==> handlers[h].id == connection_id
      modifies this
      ensures Current() == Next(old(Current()), StoreEvent(h, connection_id))
      ensures active_connections.Keys == old(active_connections.Keys) + {connection_id}
      ensures active_connections[connection_id] == h
      ensures forall id :: id in active_connections && id != connection_id ==>
                active_connections[id] == old(active_connections)[id]
    {
      active_connections := active_connections[connection_id := h];
      handlers := handlers[h := Handler(connection_id, if side.ServerSide? then Connecting else Forwarding, true)];
    }

    /** The server tests for the key first; the client's `del` raises when the key is missing. */
    method Remove(ghost h: nat, connection_id: Id) returns (raises: bool)
      requires Enabled(Current(), Leaves(h)) && handlers[h].id == connection_id
      modifies this
      ensures Current() == Next(old(Current()), Leaves(h))
      ensures raises <==> side.ClientSide? && connection_id !in old(active_connections)
      ensures active_connections.Keys == old(active_connections.Keys) - {connection_id}
      ensures forall id :: id in active_connections ==> active_connections[id] == old(active_connections)[id]
    {
      raises := side.ClientSide? && connection_id !in active_connections;
      if connection_id in active_connections {
        active_connections := active_connections - {connection_id};
      }
      handlers := handlers[h := handlers[h].(pc := if raises then Failed else Gone)];
      assert active_connections == Delete(old(active_connections), connection_id);
    }
  }
}
