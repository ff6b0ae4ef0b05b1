/**
 * The watch as one transition system: transport, synchronization, optimistic action and cache,
 * as the runtime wires them. Sockets, clocks and the navigation stack appear as event parameters.
 */
module RuntimeModel {
  import opened Integers
  import opened WatchModel
  import opened Wire
  import R = Replication
  import A = WatchActions
  import C = WatchCache

  datatype Watch = Watch(
    state: State,
    sync: R.Sync,
    actions: A.Actions,
    cache: C.Record,
    open: bool,
    nextId: U32)

  /**
   * `sent` flags say whether the socket took the whole frame. A message that fails to decode, or
   * a line that is too long, is a `BadFrame`. `Navigate` carries the screen the stack ends on.
   */
  datatype Event =
    | Connect(helloSent: bool, requestSent: bool, now: U64)
    | Deliver(message: Message, sent: bool, now: U64)
    | BadFrame(now: U64)
    | PeerClosed(now: U64)
    | Tap(sent: bool, now: U64)
    | Navigate(screen: Screen, now: U64)
    | NextItem(now: U64)
    | PreviousItem(now: U64)
    | Poll(now: U64)

  /** What an observer of the transport and of the action sees. */
  datatype Output =
    | WentUp
    | WentDown
    | SentHello(id: U32, sent: bool)
    | SentSyncRequest(id: U32, revision: U64, sent: bool)
    | SentAction(id: U32, playing: bool, sent: bool)
    | SentUnsupported(id: U32, replyTo: U32, sent: bool)
    | Begun
    | Confirmed
    | RolledBack

  datatype Stepped = Stepped(watch: Watch, out: seq<Output>)

  /** A handler's verdict: a refusal makes the transport disconnect. */
  datatype HandledMessage = HandledMessage(accepted: bool, watch: Watch, out: seq<Output>)

  function Captured(l: C.Layout, w: Watch, now: U64): Watch {
    w.(cache := C.CaptureSync(l, w.cache, w.state, w.sync.revision, now))
  }

  /** Asking for a snapshot takes a message id even when the send fails. */
  function RequestSync(w: Watch, revision: U64, sent: bool): HandledMessage {
    if !w.open then HandledMessage(false, w, [])
    else HandledMessage(sent, w.(nextId := WrapInc32(w.nextId)), [SentSyncRequest(w.nextId, revision, sent)])
  }

  /** A reply to the pending action ends it, and what it ended in is cached; other replies are ignored. */
  function AfterReply(l: C.Layout, w: Watch, m: Message, now: U64): HandledMessage {
    if !A.Answered(w.actions, m) then HandledMessage(true, w, [])
    else
      var (actions, state) := A.HandleResult(w.actions, w.state, m);
      HandledMessage(true, Captured(l, w.(actions := actions, state := state), now),
                     [if A.HasStatus(m.raw, "ok") then Confirmed else RolledBack])
  }

  /** What follows from the result of synchronization. */
  function AfterSync(l: C.Layout, w: Watch, h: R.Handled, sent: bool, now: U64): HandledMessage {
    var next := w.(sync := h.sync, state := h.state);
    match h.result
    case Error => HandledMessage(false, next, [])
    case NeedsSnapshot => RequestSync(next, h.sync.revision, sent)
    case Changed =>
      var shown := next.(state := h.state.(connection := Online, stale := false, updatedAt := now));
      HandledMessage(true, Captured(l, shown, now), [])
    case _ => HandledMessage(true, next, [])
  }

  function HandleProtocol(l: C.Layout, w: Watch, m: Message, sent: bool, now: U64): HandledMessage {
    if m.kind == CommandResult then AfterReply(l, w, m, now)
    else AfterSync(l, w, R.Handle(w.sync, w.state, m), sent, now)
  }

  function HandleMessage(l: C.Layout, w: Watch, m: Message, sent: bool, now: U64): HandledMessage {
    if m.kind == HostCommand then
      HandledMessage(sent, w.(nextId := WrapInc32(w.nextId)), [SentUnsupported(w.nextId, m.id, sent)])
    else HandleProtocol(l, w, m, sent, now)
  }

  /** What the runtime does when the transport reports a lost connection. */
  function Lost(l: C.Layout, w: Watch, now: U64): Watch {
    var (actions, failed) := A.Fail(w.actions, w.state, "HOST OFFLINE");
    var offline := w.(actions := actions, state := failed.(connection := Offline), sync := R.Disconnected(w.sync));
    if w.cache.contents.weatherMeta.version == 0 then offline
    else offline.(state := offline.state.(stale := true), cache := C.MarkStale(l, w.cache, now))
  }

  function Disconnect(l: C.Layout, w: Watch, now: U64): Stepped {
    if !w.open then Stepped(w, [])
    else
      Stepped(Lost(l, w.(open := false), now), [WentDown] + if w.actions.pending then [RolledBack] else [])
  }

  /** The transport after a handler: a refused message closes the connection. */
  function Settle(l: C.Layout, h: HandledMessage, now: U64): Stepped {
    if h.accepted then Stepped(h.watch, h.out)
    else
      var down := Disconnect(l, h.watch, now);
      Stepped(down.watch, h.out + down.out)
  }

  /** The socket is up: the hello has gone out, or not. */
  function Up(w: Watch): Watch {
    w.(open := true, state := w.state.(connection := Connecting), sync := R.Connected(w.sync),
       nextId := WrapInc32(w.nextId))
  }

  /** The first request for a snapshot follows the hello; either failing to go out closes the connection. */
  function Bootstrap(w: Watch, helloSent: bool, requestSent: bool): HandledMessage {
    if helloSent then RequestSync(w, 0, requestSent) else HandledMessage(false, w, [])
  }

  function ConnectStep(l: C.Layout, w: Watch, helloSent: bool, requestSent: bool, now: U64): Stepped {
    if w.open then Stepped(w, [])
    else
      var settled := Settle(l, Bootstrap(Up(w), helloSent, requestSent), now);
      Stepped(settled.watch, [WentUp, SentHello(w.nextId, helloSent)] + settled.out)
  }

  function DeliverStep(l: C.Layout, w: Watch, m: Message, sent: bool, now: U64): Stepped {
    if !w.open then Stepped(w, []) else Settle(l, HandleMessage(l, w, m, sent, now), now)
  }

  function TapStep(l: C.Layout, w: Watch, sent: bool, now: U64): Stepped {
    if w.state.screen != Music || w.actions.pending then Stepped(w, [])
    else
      var (actions, state) := A.Begin(w.actions, w.state, now).value;
      if w.open then
        var next := w.(nextId := WrapInc32(w.nextId));
        var frame := SentAction(w.nextId, state.host.playing, sent);
        if sent then
          Stepped(Captured(l, next.(actions := actions.(messageId := w.nextId), state := state), now), [Begun, frame])
        else
          var (idle, failed) := A.Fail(actions, state, "HOST OFFLINE");
          Stepped(Captured(l, next.(actions := idle, state := failed), now), [Begun, frame, RolledBack])
      else
        var (idle, failed) := A.Fail(actions, state, "HOST OFFLINE");
        Stepped(Captured(l, w.(actions := idle, state := failed), now), [Begun, RolledBack])
  }

  function MovedTo(l: C.Layout, w: Watch, moved: Option<State>, now: U64): Watch {
    if w.state.screen != Notifications || moved.None? then w
    else w.(state := moved.value, cache := C.CaptureApplication(l, w.cache, moved.value, now))
  }

  function Step(l: C.Layout, w: Watch, e: Event): Stepped {
    match e
    case Connect(helloSent, requestSent, now) => ConnectStep(l, w, helloSent, requestSent, now)
    case Deliver(message, sent, now) => DeliverStep(l, w, message, sent, now)
    case BadFrame(now) => Disconnect(l, w, now)
    case PeerClosed(now) => Disconnect(l, w, now)
    case Tap(sent, now) => TapStep(l, w, sent, now)
    case Navigate(screen, now) =>
      var shown := w.state.(screen := screen);
      Stepped(w.(state := shown, cache := C.CaptureApplication(l, w.cache, shown, now)), [])
    case NextItem(now) => Stepped(MovedTo(l, w, NextNotification(w.state), now), [])
    case PreviousItem(now) => Stepped(MovedTo(l, w, PreviousNotification(w.state), now), [])
    case Poll(now) =>
      var (actions, state) := A.PollTimeout(w.actions, w.state, now);
      Stepped(w.(actions := actions, state := state), if A.TimedOut(w.actions, now) then [RolledBack] else [])
  }

  /** A power-on: the initial state, over which a stored record that loads is restored. */
  function Boot(l: C.Layout, stored: Option<C.Record>): Watch {
    var blank := C.Sealed(l, C.Blank(l));
    if stored.Some? && C.Valid(l, stored.value)
    then Watch(C.Restore(l, stored.value, INITIAL).1, R.FRESH, A.IDLE, stored.value, false, 1)
    else Watch(INITIAL, R.FRESH, A.IDLE, blank, false, 1)
  }
}
