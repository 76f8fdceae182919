// One direction of the WebSocket tunnel: a forwarder from a Unix socket to WebSocket messages, the
// message link, and the peer's forwarder from messages to its Unix socket. There is no queue.
module WebSocketTunnel {
  import opened Chunks
  import P = ProgressLog

  /** The two kinds of data message of section 5.6 of RFC 6455. */
  datatype Message = Text(text: string) | Binary(data: Bytes)

  /** `Sending`: inside `websocket.send(chunk)`; `onWire`: the message is already on the link. */
  datatype SendPc = Reading | Sending(chunk: Bytes, onWire: bool) | SendDone
  /** `Draining`: inside `unix_writer.drain()` after `write(chunk)`. */
  datatype RecvPc = Receiving | Draining(chunk: Bytes) | RecvDone

  /**
   * `got`: chunks read from the source. `wired`: those that became messages. `sent`: those whose `send`
   * returned. `total`, `counted`: the two `total_bytes`. `taken`: number of messages received.
   */
  datatype State = State(srcOut: Bytes, srcClosed: bool,
                         sp: SendPc, got: seq<Bytes>, wired: seq<Bytes>, sent: seq<Bytes>, total: nat,
                         link: seq<Message>, linkClosed: bool,
                         rp: RecvPc, taken: nat, written: seq<Bytes>, counted: nat)

  datatype Event = SrcWrites(bytes: Bytes) | SrcCloses
                 | Read(chunk: Bytes) | ReadEof | MessageLeaves | SendReturns | SenderStops
                 | TextArrives(text: string) | LinkCloses
                 | TakeMessage | DrainReturns | LinkEnds | ReceiverStops

  function NewTunnel(): State
  {
    State([], false, Reading, [], [], [], 0, [], false, Receiving, 0, [], 0)
  }

  /** `SenderStops`, `ReceiverStops`: a cancellation or an exception, wherever the forwarder is. */
  predicate Enabled(s: State, e: Event)
  {
    match e
    case SrcWrites(_) => !s.srcClosed
    case SrcCloses => !s.srcClosed
    case Read(chunk) => s.sp.Reading? && 1 <= |chunk| <= READ_SIZE && Flat(s.got) + chunk <= s.srcOut
    case ReadEof => s.sp.Reading? && s.srcClosed && Flat(s.got) == s.srcOut
    case MessageLeaves => s.sp.Sending? && !s.sp.onWire && !s.linkClosed
    case SendReturns => s.sp.Sending? && s.sp.onWire
    case SenderStops => !s.sp.SendDone?
    case TextArrives(_) => !s.linkClosed
    case LinkCloses => s.sp.SendDone? && !s.linkClosed
    case TakeMessage => s.rp.Receiving? && s.taken < |s.link|
    case DrainReturns => s.rp.Draining?
    case LinkEnds => s.rp.Receiving? && s.linkClosed && s.taken == |s.link|
    case ReceiverStops => !s.rp.RecvDone?
  }

  function Next(s: State, e: Event): State
    requires Enabled(s, e)
  {
    match e
    case SrcWrites(bytes) => s.(srcOut := s.srcOut + bytes)
    case SrcCloses => s.(srcClosed := true)
    case Read(chunk) => s.(got := s.got + [chunk], sp := Sending(chunk, false))
    case ReadEof => s.(sp := SendDone)
    case MessageLeaves =>
      s.(link := s.link + [Binary(s.sp.chunk)], wired := s.wired + [s.sp.chunk], sp := Sending(s.sp.chunk, true))
    case SendReturns => s.(sent := s.sent + [s.sp.chunk], total := s.total + |s.sp.chunk|, sp := Reading)
    case SenderStops => s.(sp := SendDone)
    case TextArrives(text) => s.(link := s.link + [Text(text)])
    case LinkCloses => s.(linkClosed := true)
    case TakeMessage =>
      (match s.link[s.taken]
       case Binary(data) => s.(taken := s.taken + 1, written := s.written + [data], rp := Draining(data))
       case Text(_) => s.(taken := s.taken + 1))
    case DrainReturns => s.(counted := s.counted + |s.rp.chunk|, rp := Receiving)
    case LinkEnds => s.(rp := RecvDone)
    case ReceiverStops => s.(rp := RecvDone)
  }

  predicate CanRun(s: State, es: seq<Event>)
    decreases |es|
  {
    es == [] || (Enabled(s, es[0]) && CanRun(Next(s, es[0]), es[1..]))
  }

  function Exec(s: State, es: seq<Event>): State
    requires CanRun(s, es)
    decreases |es|
  {
    if es == [] then s else Exec(Next(s, es[0]), es[1..])
  }

  /** The contents of the binary messages. */
  function Binaries(ms: seq<Message>): seq<Bytes>
  {
    if ms == [] then []
    else
      var m := ms[|ms| - 1];
      Binaries(ms[..|ms| - 1]) + (if m.Binary? then [m.data] else [])
  }

  lemma BinariesSnoc(ms: seq<Message>, m: Message)
    ensures Binaries(ms + [m]) == Binaries(ms) + (if m.Binary? then [m.data] else [])
  {
  }

  lemma {:induction false} BinariesPrefix(ms: seq<Message>, k: nat)
    requires k <= |ms|
    ensures Binaries(ms[..k]) <= Binaries(ms)
  {
    if k == |ms| {
      assert ms[..k] == ms;
    } else {
      var init := ms[..|ms| - 1];
      BinariesPrefix(init, k);
      assert init[..k] == ms[..k];
    }
  }

  ghost predicate SenderValid(s: State)
  {
    SenderChunks(s) && NonEmpty(s.got) && SenderBytes(s)
  }

  ghost predicate SenderBytes(s: State)
  {
    Flat(s.got) <= s.srcOut && s.total == Size(s.sent)
  }

  ghost predicate NonEmpty(cs: seq<Bytes>)
  {
    forall i :: 0 <= i < |cs| ==> cs[i] != []
  }

  ghost predicate SenderChunks(s: State)
  {
    && s.sent <= s.wired <= s.got && |s.got| <= |s.sent| + 1
    && (s.sp.Reading? ==> s.sent == s.wired == s.got)
    && (s.sp.Sending? ==> s.got == s.sent + [s.sp.chunk] && s.wired == if s.sp.onWire then s.got else s.sent)
  }

  ghost predicate LinkValid(s: State)
  {
    && Binaries(s.link) == s.wired
    && (s.linkClosed ==> s.sp.SendDone?)
    && s.taken <= |s.link|
    && s.written == Binaries(s.link[..s.taken])
  }

  ghost predicate ReceiverValid(s: State)
  {
    match s.rp
    case Receiving => s.counted == Size(s.written)
    case Draining(chunk) => s.written != [] && chunk == s.written[|s.written| - 1]
                            && s.counted == Size(s.written[..|s.written| - 1])
    case RecvDone => s.counted == Size(s.written)
                     || (s.written != [] && s.counted == Size(s.written[..|s.written| - 1]))
  }

  ghost predicate Valid(s: State)
  {
    SenderValid(s) && LinkValid(s) && ReceiverValid(s)
  }

  lemma ReadKeepsSenderChunks(s: State, chunk: Bytes)
    requires SenderChunks(s) && Enabled(s, Read(chunk))
    ensures SenderChunks(Next(s, Read(chunk)))
  {
  }

  lemma SendKeepsSenderChunks(s: State, e: Event)
    requires SenderChunks(s) && Enabled(s, e) && (e.MessageLeaves? || e.SendReturns?)
    ensures SenderChunks(Next(s, e))
  {
  }

  lemma NextKeepsSenderChunks(s: State, e: Event)
    requires SenderChunks(s) && Enabled(s, e)
    ensures SenderChunks(Next(s, e))
  {
    match e
    case Read(chunk) => ReadKeepsSenderChunks(s, chunk);
    case MessageLeaves => SendKeepsSenderChunks(s, e);
    case SendReturns => SendKeepsSenderChunks(s, e);
    case _ =>
  }

  lemma NextKeepsNonEmpty(s: State, e: Event)
    requires NonEmpty(s.got) && Enabled(s, e)
    ensures NonEmpty(Next(s, e).got)
  {
  }

  lemma NextKeepsSenderBytes(s: State, e: Event)
    requires SenderBytes(s) && Enabled(s, e)
    ensures SenderBytes(Next(s, e))
  {
    match e
    case Read(chunk) => FlatSnoc(s.got, chunk);
    case SendReturns => FlatSnoc(s.sent, s.sp.chunk);
    case _ =>
  }

  lemma NextKeepsSender(s: State, e: Event)
    requires SenderValid(s) && Enabled(s, e)
    ensures SenderValid(Next(s, e))
  {
    NextKeepsSenderChunks(s, e);
    NextKeepsNonEmpty(s, e);
    NextKeepsSenderBytes(s, e);
  }

  /** A message is put on the link behind those that were taken. */
  lemma LinkGrows(link: seq<Message>, m: Message, taken: nat)
    requires taken <= |link|
    ensures Binaries(link + [m]) == Binaries(link) + (if m.Binary? then [m.data] else [])
    ensures Binaries((link + [m])[..taken]) == Binaries(link[..taken])
  {
    BinariesSnoc(link, m);
    assert (link + [m])[..taken] == link[..taken];
  }

  lemma TakeKeepsLink(s: State)
    requires LinkValid(s) && Enabled(s, TakeMessage)
    ensures LinkValid(Next(s, TakeMessage))
  {
    BinariesSnoc(s.link[..s.taken], s.link[s.taken]);
    assert s.link[..s.taken + 1] == s.link[..s.taken] + [s.link[s.taken]];
  }

  lemma NextKeepsLink(s: State, e: Event)
    requires LinkValid(s) && Enabled(s, e)
    ensures LinkValid(Next(s, e))
  {
    match e
    case MessageLeaves => LinkGrows(s.link, Binary(s.sp.chunk), s.taken);
    case TextArrives(text) => LinkGrows(s.link, Text(text), s.taken);
    case TakeMessage => TakeKeepsLink(s);
    case _ =>
  }

  lemma NextKeepsReceiver(s: State, e: Event)
    requires ReceiverValid(s) && Enabled(s, e)
    ensures ReceiverValid(Next(s, e))
  {
  }

  lemma {:induction false} ExecKeepsValid(s: State, es: seq<Event>)
    requires Valid(s) && CanRun(s, es)
    ensures Valid(Exec(s, es))
    decreases |es|
  {
    if es == [] {
    } else {
      NextKeepsSender(s, es[0]);
      NextKeepsLink(s, es[0]);
      NextKeepsReceiver(s, es[0]);
      ExecKeepsValid(Next(s, es[0]), es[1..]);
    }
  }

  /**
   * For every run, with no condition on any backlog: what is written at the far end is a prefix of what
   * the source wrote, text messages change nothing, and the sender has at most one chunk in hand.
   */
  lemma PrefixAlways(es: seq<Event>)
    requires CanRun(NewTunnel(), es)
    ensures var s := Exec(NewTunnel(), es);
            && Flat(s.written) <= s.srcOut
            && s.written <= s.wired <= s.got && |s.got| <= |s.wired| + 1
            && s.taken <= |s.link| && s.written == Binaries(s.link[..s.taken])
  {
    ExecKeepsValid(NewTunnel(), es);
    var s := Exec(NewTunnel(), es);
    BinariesPrefix(s.link, s.taken);
    FlatPrefix(s.written, s.wired);
    FlatPrefix(s.wired, s.got);
  }

  // What comes in from outside.

  function SrcBytesOf(e: Event): Bytes
  {
    if e.SrcWrites? then e.bytes else []
  }

  function TextOf(e: Event): seq<string>
  {
    if e.TextArrives? then [e.text] else []
  }

  /** All bytes that the source has written. */
  function SrcBytes(es: seq<Event>): Bytes
  {
    if es == [] then [] else SrcBytesOf(es[0]) + SrcBytes(es[1..])
  }

  /** The texts of the text messages. */
  function Texts(ms: seq<Message>): seq<string>
  {
    if ms == [] then []
    else
      var m := ms[|ms| - 1];
      Texts(ms[..|ms| - 1]) + (if m.Text? then [m.text] else [])
  }

  function TextsSent(es: seq<Event>): seq<string>
  {
    if es == [] then [] else TextOf(es[0]) + TextsSent(es[1..])
  }

  lemma TextsSnoc(ms: seq<Message>, m: Message)
    ensures Texts(ms + [m]) == Texts(ms) + (if m.Text? then [m.text] else [])
  {
  }

  lemma StepKeepsInputs(s: State, e: Event)
    requires Enabled(s, e)
    ensures Next(s, e).srcOut == s.srcOut + SrcBytesOf(e)
    ensures Texts(Next(s, e).link) == Texts(s.link) + TextOf(e)
  {
    match e {
      case MessageLeaves => TextsSnoc(s.link, Binary(s.sp.chunk));
      case TextArrives(text) => TextsSnoc(s.link, Text(text));
      case _ =>
    }
  }

  lemma {:induction false} InputsFrom(s: State, es: seq<Event>)
    requires CanRun(s, es)
    ensures Exec(s, es).srcOut == s.srcOut + SrcBytes(es)
    ensures Texts(Exec(s, es).link) == Texts(s.link) + TextsSent(es)
    decreases |es|
  {
    if es == [] {
    } else {
      StepKeepsInputs(s, es[0]);
      InputsFrom(Next(s, es[0]), es[1..]);
      Regroup(s.srcOut, SrcBytesOf(es[0]), SrcBytes(es[1..]));
      Regroup(Texts(s.link), TextOf(es[0]), TextsSent(es[1..]));
    }
  }

  /** The source's stream is what it wrote, in order; and the link carries all texts, in order, beside the chunks. */
  lemma InputsAreKept(es: seq<Event>)
    requires CanRun(NewTunnel(), es)
    ensures var s := Exec(NewTunnel(), es);
            s.srcOut == SrcBytes(es) && Texts(s.link) == TextsSent(es) && Binaries(s.link) == s.wired
  {
    ExecKeepsValid(NewTunnel(), es);
    InputsFrom(NewTunnel(), es);
    assert [] + SrcBytes(es) == SrcBytes(es) && [] + TextsSent(es) == TextsSent(es);
  }

  /** The sender was stopped while it had a chunk in hand that was not on the link. */
  predicate StoppedInHand(s: State, es: seq<Event>)
    requires CanRun(s, es)
    decreases |es|
  {
    es != [] && ((es[0].SenderStops? && InHand(s)) || StoppedInHand(Next(s, es[0]), es[1..]))
  }

  predicate InHand(s: State)
  {
    s.sp.Sending? && !s.sp.onWire
  }

  /** A read chunk that is not on the link is in the sender's hand, or was when the sender was stopped. */
  lemma {:induction false} AllWiredIff(s: State, es: seq<Event>, stopped: bool)
    requires SenderChunks(s) && CanRun(s, es)
    requires (stopped ==> s.sp.SendDone?) && (s.wired == s.got <==> !InHand(s) && !stopped)
    ensures var s' := Exec(s, es); s'.wired == s'.got <==> !InHand(s') && !stopped && !StoppedInHand(s, es)
    decreases |es|
  {
    if es == [] {
    } else {
      NextKeepsSenderChunks(s, es[0]);
      AllWiredIff(Next(s, es[0]), es[1..], stopped || (es[0].SenderStops? && InHand(s)));
    }
  }

  /** No binary message is left on the link. */
  predicate OnlyTextLeft(ms: seq<Message>, taken: nat)
  {
    forall k :: taken <= k < |ms| ==> ms[k].Text?
  }

  lemma {:induction false} AllTakenIff(ms: seq<Message>, taken: nat)
    requires taken <= |ms|
    ensures Binaries(ms[..taken]) == Binaries(ms) <==> OnlyTextLeft(ms, taken)
  {
    if taken == |ms| {
      assert ms[..taken] == ms;
    } else {
      var init := ms[..|ms| - 1];
      AllTakenIff(init, taken);
      BinariesPrefix(init, taken);
      assert init[..taken] == ms[..taken];
      assert forall k :: taken <= k < |init| ==> init[k] == ms[k];
    }
  }

  lemma SameBytesSameChunks(a: seq<Bytes>, b: seq<Bytes>)
    requires a <= b && NonEmpty(b)
    ensures Flat(a) <= Flat(b) && (Flat(a) == Flat(b) <==> a == b)
  {
    FlatPrefix(a, b);
    if a != b {
      var rest := b[|a|..];
      assert b == a + rest;
      FlatConcat(a, rest);
      FlatHead(rest);
    }
  }

  lemma ArrivedIff(s: State)
    requires SenderValid(s) && LinkValid(s)
    ensures Flat(s.written) == s.srcOut <==> Flat(s.got) == s.srcOut && s.wired == s.got && OnlyTextLeft(s.link, s.taken)
  {
    AllTakenIff(s.link, s.taken);
    BinariesPrefix(s.link, s.taken);
    SameBytesSameChunks(s.written, s.wired);
    SameBytesSameChunks(s.wired, s.got);
  }

  /**
   * The whole stream has arrived, in any run and at any moment, if and only if the source's bytes have
   * all been read, the sender neither has a chunk in hand nor was stopped with one, and no binary message
   * is left on the link. So it has in the end whenever neither forwarder was stopped early.
   */
  lemma CompleteIff(es: seq<Event>)
    requires CanRun(NewTunnel(), es)
    ensures var s := Exec(NewTunnel(), es);
            Flat(s.written) == s.srcOut <==>
              && Flat(s.got) == s.srcOut
              && !InHand(s) && !StoppedInHand(NewTunnel(), es)
              && OnlyTextLeft(s.link, s.taken)
    ensures var s := Exec(NewTunnel(), es);
            s.sp.SendDone? && SenderStops !in es && s.rp.RecvDone? && ReceiverStops !in es ==>
              s.srcClosed && s.linkClosed && Flat(s.written) == s.srcOut
  {
    ExecKeepsValid(NewTunnel(), es);
    UnstoppedEndings(NewTunnel(), es);
    AllWiredIff(NewTunnel(), es, false);
    var s := Exec(NewTunnel(), es);
    ArrivedIff(s);
    assert s.link[..|s.link|] == s.link;
  }

  /** How a forwarder that was never stopped can have ended. */
  ghost predicate EndedNaturally(s: State, senderStopped: bool, receiverStopped: bool)
  {
    && (s.sp.SendDone? && !senderStopped ==> s.srcClosed && Flat(s.got) == s.srcOut && s.wired == s.got)
    && (s.rp.RecvDone? && !receiverStopped ==> s.linkClosed && s.taken == |s.link|)
  }

  lemma NaturalStep(s: State, e: Event, a: bool, b: bool)
    requires SenderChunks(s) && Enabled(s, e) && EndedNaturally(s, a, b)
    requires s.linkClosed ==> s.sp.SendDone?
    ensures EndedNaturally(Next(s, e), a || e.SenderStops?, b || e.ReceiverStops?)
  {
  }

  lemma {:induction false} UnstoppedFrom(s: State, es: seq<Event>, a: bool, b: bool)
    requires Valid(s) && CanRun(s, es) && EndedNaturally(s, a, b)
    ensures EndedNaturally(Exec(s, es), a || SenderStops in es, b || ReceiverStops in es)
    decreases |es|
  {
    if es == [] {
    } else {
      NextKeepsSender(s, es[0]);
      NextKeepsLink(s, es[0]);
      NextKeepsReceiver(s, es[0]);
      NaturalStep(s, es[0], a, b);
      UnstoppedFrom(Next(s, es[0]), es[1..], a || es[0].SenderStops?, b || es[0].ReceiverStops?);
    }
  }

  lemma UnstoppedEndings(s: State, es: seq<Event>)
    requires Valid(s) && CanRun(s, es) && EndedNaturally(s, false, false)
    ensures EndedNaturally(Exec(s, es), SenderStops in es, ReceiverStops in es)
  {
    UnstoppedFrom(s, es, false, false);
  }

  predicate OnWire(s: State)
  {
    s.sp.Sending? && s.sp.onWire
  }

  /** The sender was stopped inside a `send` whose message was already on the link. */
  predicate StoppedOnWire(s: State, es: seq<Event>)
    requires CanRun(s, es)
    decreases |es|
  {
    es != [] && ((es[0].SenderStops? && OnWire(s)) || StoppedOnWire(Next(s, es[0]), es[1..]))
  }

  /** The receiver was stopped inside a `drain`. */
  predicate StoppedDraining(s: State, es: seq<Event>)
    requires CanRun(s, es)
    decreases |es|
  {
    es != [] && ((es[0].ReceiverStops? && s.rp.Draining?) || StoppedDraining(Next(s, es[0]), es[1..]))
  }

  /** One message is on the link whose `send` has not returned and never will, or not yet. */
  ghost predicate Unsent(s: State, stopped: bool)
  {
    && (stopped ==> s.sp.SendDone?)
    && s.sent <= s.wired && |s.wired| == |s.sent| + (if OnWire(s) || stopped then 1 else 0)
  }

  /** One written message has not been counted and never will, or not yet. */
  ghost predicate Uncounted(s: State, stopped: bool)
  {
    && (stopped ==> s.rp.RecvDone?)
    && (if s.rp.Draining? || stopped then s.written != [] && s.counted == Size(s.written[..|s.written| - 1])
        else s.counted == Size(s.written))
  }

  lemma {:induction false} UnsentFrom(s: State, es: seq<Event>, stopped: bool)
    requires SenderChunks(s) && CanRun(s, es) && Unsent(s, stopped)
    ensures Unsent(Exec(s, es), stopped || StoppedOnWire(s, es))
    decreases |es|
  {
    if es == [] {
    } else {
      NextKeepsSenderChunks(s, es[0]);
      UnsentFrom(Next(s, es[0]), es[1..], stopped || (es[0].SenderStops? && OnWire(s)));
    }
  }

  lemma UncountedStep(s: State, e: Event, stopped: bool)
    requires ReceiverValid(s) && Enabled(s, e) && Uncounted(s, stopped)
    ensures Uncounted(Next(s, e), stopped || (e.ReceiverStops? && s.rp.Draining?))
  {
  }

  lemma {:induction false} UncountedFrom(s: State, es: seq<Event>, stopped: bool)
    requires ReceiverValid(s) && CanRun(s, es) && Uncounted(s, stopped)
    ensures Uncounted(Exec(s, es), stopped || StoppedDraining(s, es))
    decreases |es|
  {
    if es == [] {
    } else {
      UncountedStep(s, es[0], stopped);
      NextKeepsReceiver(s, es[0]);
      UncountedFrom(Next(s, es[0]), es[1..], stopped || (es[0].ReceiverStops? && s.rp.Draining?));
    }
  }

  lemma {:induction false} StopsAreFinal(s: State, es: seq<Event>)
    requires CanRun(s, es)
    ensures s.sp.SendDone? || SenderStops in es ==> Exec(s, es).sp.SendDone?
    ensures s.rp.RecvDone? || ReceiverStops in es ==> Exec(s, es).rp.RecvDone?
    decreases |es|
  {
    if es == [] {
    } else {
      StopsAreFinal(Next(s, es[0]), es[1..]);
    }
  }

  /**
   * Byte counts, also when a forwarder is cancelled or fails, at every moment of every run. The sender has
   * counted exactly its completed sends, which are all messages on the link but for one whose `send` is
   * going on or was stopped. The receiver has counted everything it wrote but for the last message, whose
   * `drain` is going on or was stopped.
   */
  lemma CountsUnderCancellation(es: seq<Event>)
    requires CanRun(NewTunnel(), es)
    ensures var s := Exec(NewTunnel(), es);
            && s.total == Size(s.sent) && s.sent <= s.wired
            && |s.wired| == |s.sent| + (if OnWire(s) || StoppedOnWire(NewTunnel(), es) then 1 else 0)
            && (if s.rp.Draining? || StoppedDraining(NewTunnel(), es) then
                  s.written != [] && s.counted == Size(s.written[..|s.written| - 1]) < Size(s.written)
                else s.counted == Size(s.written))
            && (SenderStops in es ==> s.sp.SendDone?) && (ReceiverStops in es ==> s.rp.RecvDone?)
  {
    ExecKeepsValid(NewTunnel(), es);
    UnsentFrom(NewTunnel(), es, false);
    UncountedFrom(NewTunnel(), es, false);
    StopsAreFinal(NewTunnel(), es);
    var s := Exec(NewTunnel(), es);
    BinariesPrefix(s.link, s.taken);
    if s.written != [] {
      FlatSnoc(s.written[..|s.written| - 1], s.written[|s.written| - 1]);
      assert s.written == s.written[..|s.written| - 1] + [s.written[|s.written| - 1]];
      assert s.written[|s.written| - 1] == s.got[|s.written| - 1] != [];
    }
  }

  // Every run can be finished.

  /** Neither forwarder was stopped, and what a natural end of either has led to. */
  ghost predicate Sound(s: State)
  {
    && Valid(s)
    && (s.sp.SendDone? ==> s.srcClosed && Flat(s.got) == s.srcOut && s.sent == s.got)
    && (s.rp.RecvDone? ==> s.linkClosed && s.taken == |s.link|)
    && Uncounted(s, false)
  }

  /** The next chunk that a read can return. */
  function NextChunk(s: State): Bytes
    requires Flat(s.got) <= s.srcOut
  {
    var rest := s.srcOut[|Flat(s.got)|..];
    if |rest| <= READ_SIZE then rest else rest[..READ_SIZE]
  }

  /** What can happen next, the sender first, without stopping anything and without new data. */
  function Onward(s: State): Event
    requires Flat(s.got) <= s.srcOut
  {
    match s.sp
    case Sending(_, onWire) => if onWire then SendReturns else MessageLeaves
    case Reading => if Flat(s.got) != s.srcOut then Read(NextChunk(s)) else if s.srcClosed then ReadEof else SrcCloses
    case SendDone =>
      if !s.linkClosed then LinkCloses
      else if s.rp.Draining? then DrainReturns
      else if s.taken < |s.link| then TakeMessage else LinkEnds
  }

  function SenderWork(s: State): nat
  {
    match s.sp
    case Sending(_, onWire) => if onWire then 5 else 6
    case Reading => if s.srcClosed then 3 else 4
    case SendDone => if s.linkClosed then 0 else 1
  }

  function ReceiverWork(s: State): nat
  {
    (if s.rp.RecvDone? then 0 else 1) + (if s.rp.Draining? then 1 else 0) +
    (if s.taken <= |s.link| then 2 * (|s.link| - s.taken) else 0)
  }

  lemma ChunkIsThere(s: State)
    requires Flat(s.got) <= s.srcOut && Flat(s.got) != s.srcOut
    ensures 1 <= |NextChunk(s)| <= READ_SIZE && Flat(s.got) + NextChunk(s) <= s.srcOut
  {
    var rest := s.srcOut[|Flat(s.got)|..];
    assert s.srcOut == Flat(s.got) + rest && rest != [];
  }

  lemma OnwardIsEnabled(s: State)
    requires Flat(s.got) <= s.srcOut && s.taken <= |s.link| && (s.linkClosed ==> s.sp.SendDone?)
    requires !(s.sp.SendDone? && s.rp.RecvDone?) && (s.rp.RecvDone? ==> s.linkClosed)
    ensures Enabled(s, Onward(s)) && Next(s, Onward(s)).srcOut == s.srcOut
    ensures !Onward(s).SenderStops? && !Onward(s).ReceiverStops?
  {
    if s.sp.Reading? && Flat(s.got) != s.srcOut { ChunkIsThere(s); }
  }

  lemma OnwardKeepsSound(s: State)
    requires Sound(s) && Enabled(s, Onward(s))
    ensures Sound(Next(s, Onward(s)))
  {
    NextKeepsSender(s, Onward(s));
    NextKeepsLink(s, Onward(s));
    NextKeepsReceiver(s, Onward(s));
    UncountedStep(s, Onward(s), false);
    OnwardKeepsEnds(s);
  }

  lemma OnwardKeepsEnds(s: State)
    requires Sound(s) && Enabled(s, Onward(s))
    ensures var s' := Next(s, Onward(s));
            && (s'.sp.SendDone? ==> s'.srcClosed && Flat(s'.got) == s'.srcOut && s'.sent == s'.got)
            && (s'.rp.RecvDone? ==> s'.linkClosed && s'.taken == |s'.link|)
  {
  }

  lemma ReadIsProgress(s: State, chunk: Bytes)
    requires Flat(s.got) <= s.srcOut && Enabled(s, Read(chunk))
    ensures Size(s.got) < Size(Next(s, Read(chunk)).got) <= |s.srcOut|
  {
    FlatSnoc(s.got, chunk);
  }

  lemma OnwardReducesWork(s: State)
    requires Flat(s.got) <= s.srcOut && s.taken <= |s.link| && Enabled(s, Onward(s))
    ensures var s' := Next(s, Onward(s));
            || |s'.srcOut| - Size(s'.got) < |s.srcOut| - Size(s.got)
            || (s'.got == s.got && SenderWork(s') < SenderWork(s))
            || (s'.got == s.got && SenderWork(s') == SenderWork(s) && ReceiverWork(s') < ReceiverWork(s))
  {
    match Onward(s)
    case Read(chunk) => ReadIsProgress(s, chunk);
    case _ =>
  }

  lemma {:induction false} Finishes(s: State) returns (fs: seq<Event>)
    requires Sound(s)
    ensures CanRun(s, fs) && SenderStops !in fs && ReceiverStops !in fs
    ensures var s' := Exec(s, fs); Sound(s') && s'.sp.SendDone? && s'.rp.RecvDone? && s'.srcOut == s.srcOut
    decreases |s.srcOut| - Size(s.got), SenderWork(s), ReceiverWork(s)
  {
    if s.sp.SendDone? && s.rp.RecvDone? {
      fs := [];
    } else {
      OnwardIsEnabled(s);
      OnwardKeepsSound(s);
      OnwardReducesWork(s);
      var e := Onward(s);
      var rest := Finishes(Next(s, e));
      fs := [e] + rest;
      assert fs[1..] == rest;
    }
  }

  /** The events lead on from `s` to the end of both forwarders, with everything delivered and counted. */
  ghost predicate Delivers(s: State, fs: seq<Event>, data: Bytes)
  {
    && CanRun(s, fs) && SenderStops !in fs && ReceiverStops !in fs
    && var s' := Exec(s, fs);
       && s'.sp.SendDone? && s'.rp.RecvDone?
       && s'.srcOut == Flat(s'.written) == data && s'.total == s'.counted == |data|
  }

  lemma EndDelivers(s: State)
    requires Sound(s) && s.sp.SendDone? && s.rp.RecvDone?
    ensures Flat(s.written) == s.srcOut && s.total == s.counted == |s.srcOut|
  {
    assert s.link[..|s.link|] == s.link;
    assert s.written == s.wired == s.got;
  }

  lemma UnstoppedIsSound(es: seq<Event>)
    requires CanRun(NewTunnel(), es) && SenderStops !in es && ReceiverStops !in es
    ensures Sound(Exec(NewTunnel(), es))
  {
    ExecKeepsValid(NewTunnel(), es);
    UnstoppedEndings(NewTunnel(), es);
    CountsUnderCancellation(es);
    NoStopNoLoss(NewTunnel(), es);
  }

  lemma {:induction false} NoStopNoLoss(s: State, es: seq<Event>)
    requires CanRun(s, es) && SenderStops !in es && ReceiverStops !in es
    ensures !StoppedOnWire(s, es) && !StoppedDraining(s, es)
    decreases |es|
  {
    if es == [] {
    } else {
      NoStopNoLoss(Next(s, es[0]), es[1..]);
    }
  }

  /**
   * Every run in which no forwarder was stopped can go on, with no new data, until both have ended, and
   * then exactly the bytes that the source wrote have come out, and both totals are their number;
   * whatever was read so far, and whatever text messages lie between.
   */
  lemma EveryRunCanFinish(es: seq<Event>)
    requires CanRun(NewTunnel(), es) && SenderStops !in es && ReceiverStops !in es
    ensures exists fs :: Delivers(Exec(NewTunnel(), es), fs, SrcBytes(es))
  {
    UnstoppedIsSound(es);
    var fs := Finishes(Exec(NewTunnel(), es));
    EndDelivers(Exec(Exec(NewTunnel(), es), fs));
    InputsAreKept(es);
    assert Delivers(Exec(NewTunnel(), es), fs, SrcBytes(es));
  }

  // The two loops.

  /**
   * `forward_unix_to_ws`: `chunks` are the results of `read` up to end-of-file, a failure or a
   * cancellation there; the call number `failAt` of `send` does not return.
   */
  method ForwardUnixToWs(chunks: seq<Bytes>, failAt: nat) returns (sent: seq<Bytes>, total_bytes: nat, log: seq<nat>)
    ensures sent == if failAt < |chunks| then chunks[..failAt] else chunks
    ensures total_bytes == Size(sent) && log == P.LogOf(sent)
  {
    sent, total_bytes, log := [], 0, [];
    var i := 0;
    while i < |chunks|
      invariant 0 <= i <= |chunks| && i <= failAt
      invariant sent == chunks[..i] && total_bytes == Size(sent) && log == P.LogOf(sent)
    {
      if i == failAt {
        return;
      }
      FlatSnoc(sent, chunks[i]);
      P.LogOfSnoc(sent, chunks[i]);
      sent := sent + [chunks[i]];
      total_bytes := total_bytes + |chunks[i]|;
      log := P.LogLine(log, total_bytes);
      i := i + 1;
    }
  }

  /**
   * `forward_ws_to_unix`: `inbox` is what the iteration over the WebSocket yields before it ends; the
   * call number `failAt` of `drain` does not return.
   */
  method ForwardWsToUnix(inbox: seq<Message>, failAt: nat) returns (written: seq<Bytes>, total_bytes: nat, log: seq<nat>)
    ensures var all := Binaries(inbox);
            if failAt < |all| then
              written == all[..failAt + 1] && total_bytes == Size(all[..failAt]) && log == P.LogOf(all[..failAt])
            else
              written == all && total_bytes == Size(all) && log == P.LogOf(all)
  {
    written, total_bytes, log := [], 0, [];
    var i := 0;
    while i < |inbox|
      invariant 0 <= i <= |inbox| && |written| <= failAt
      invariant written == Binaries(inbox[..i]) && total_bytes == Size(written) && log == P.LogOf(written)
    {
      BinariesSnoc(inbox[..i], inbox[i]);
      assert inbox[..i + 1] == inbox[..i] + [inbox[i]];
      BinariesPrefix(inbox, i + 1);
      if inbox[i].Binary? {
        var message := inbox[i].data;
        ghost var before := written;
        written := written + [message];
        if |written| == failAt + 1 {
          assert before == written[..failAt] == Binaries(inbox)[..failAt];
          return;
        }
        FlatSnoc(before, message);
        P.LogOfSnoc(before, message);
        total_bytes := total_bytes + |message|;
        log := P.LogLine(log, total_bytes);
      }
      i := i + 1;
    }
    assert inbox[..|inbox|] == inbox;
  }
}
