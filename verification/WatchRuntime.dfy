/** The event handlers of the runtime and the transport, over the objects they share. */
module WatchRuntime {
  import opened Integers
  import opened WatchModel
  import opened Wire
  import R = Replication
  import A = WatchActions
  import C = WatchCache
  import S = WatchSync
  import opened RuntimeModel
  import opened RuntimeInvariants

  class Runtime {
    const state: WatchState
    const sync: S.WatchSync
    const actions: A.WatchActions
    const cache: C.WatchCache
    var open: bool
    var nextMessageId: U32

    ghost predicate Valid()
      reads this, sync, sync.buffered
    {
      sync.Valid()
    }

    function View(): Watch
      requires Valid()
      reads this, state, sync, sync.buffered, actions, cache
    {
      Watch(state.View(), sync.View(), actions.View(), cache.View(), open, nextMessageId)
    }

    /** Power-on, with what the storage returned. */
    constructor (layout: C.Layout, stored: Option<C.Record>)
      ensures Valid() && cache.layout == layout
      ensures View() == Boot(layout, stored)
    {
      state := new WatchState();
      sync := new S.WatchSync();
      actions := new A.WatchActions();
      cache := new C.WatchCache(layout);
      open, nextMessageId := false, 1;
      new;
      if stored.Some? && C.Valid(layout, stored.value) {
        cache.Load(stored.value);
        var _ := cache.RestoreInto(state);
      }
    }

    method TransportRequestSync(revision: U64, sent: bool) returns (ok: bool, out: seq<Output>)
      requires Valid()
      modifies this
      ensures Valid() && HandledMessage(ok, View(), out) == RequestSync(old(View()), revision, sent)
    {
      if !open {
        return false, [];
      }
      out := [SentSyncRequest(nextMessageId, revision, sent)];
      nextMessageId := WrapInc32(nextMessageId);
      ok := sent;
    }

    /** A command result: reconcile the action and cache what it ended in. */
    method HandleReply(m: Message, now: U64) returns (out: seq<Output>)
      requires Valid() && m.kind == CommandResult
      modifies state, actions, cache
      ensures Valid() && HandledMessage(true, View(), out) == AfterReply(cache.layout, old(View()), m, now)
    {
      var handled := actions.Reconcile(state, m);
      if !handled {
        return [];
      }
      cache.CaptureSynchronized(state, sync.revision, now);
      return [if A.HasStatus(m.raw, "ok") then Confirmed else RolledBack];
    }

    /** Any other message: synchronize, then ask for a snapshot or show and cache the new state. */
    method HandleState(m: Message, sent: bool, now: U64) returns (ok: bool, out: seq<Output>)
      requires Valid()
      modifies this, state, sync, sync.buffered, cache
      ensures Valid()
      ensures HandledMessage(ok, View(), out) ==
              AfterSync(cache.layout, old(View()), R.Handle(old(sync.View()), old(state.View()), m), sent, now)
    {
      hide R.Handle, RequestSync, C.CaptureSync;
      var result := sync.Handle(state, m);
      if result == R.Error {
        return false, [];
      }
      if result == R.NeedsSnapshot {
        ok, out := TransportRequestSync(sync.revision, sent);
        return;
      }
      if result == R.Changed {
        state.connection := Online;
        state.hostDataStale := false;
        state.hostDataUpdatedAtMs := now;
        cache.CaptureSynchronized(state, sync.revision, now);
      }
      return true, [];
    }

    method HandleProtocolMessage(m: Message, sent: bool, now: U64) returns (ok: bool, out: seq<Output>)
      requires Valid()
      modifies this, state, sync, sync.buffered, actions, cache
      ensures Valid() && HandledMessage(ok, View(), out) == HandleProtocol(cache.layout, old(View()), m, sent, now)
    {
      if m.kind == CommandResult {
        out := HandleReply(m, now);
        ok := true;
      } else {
        ok, out := HandleState(m, sent, now);
      }
    }

    method TransportDisconnect(now: U64) returns (out: seq<Output>)
      requires Valid()
      modifies this, state, sync, sync.buffered, actions, cache
      ensures Valid() && Stepped(View(), out) == Disconnect(cache.layout, old(View()), now)
    {
      if !open {
        return [];
      }
      open := false;
      out := [WentDown] + if actions.pending then [RolledBack] else [];
      if actions.pending {
        actions.FailPending(state, "HOST OFFLINE");
      }
      state.connection := Offline;
      sync.Disconnect();
      if cache.contents.weatherMeta.version > 0 {
        state.hostDataStale := true;
        cache.MarkOffline(now);
      }
    }

    method TransportConnect(helloSent: bool, requestSent: bool, now: U64) returns (out: seq<Output>)
      requires Valid()
      modifies this, state, sync, sync.buffered, actions, cache
      ensures Valid() && Stepped(View(), out) == ConnectStep(cache.layout, old(View()), helloSent, requestSent, now)
    {
      hide Disconnect;
      if open {
        return [];
      }
      open := true;
      state.connection := Connecting;
      sync.Connect();
      var hello := [WentUp, SentHello(nextMessageId, helloSent)];
      nextMessageId := WrapInc32(nextMessageId);
      var ok := helloSent;
      out := [];
      if ok {
        ok, out := TransportRequestSync(0, requestSent);
      }
      if !ok {
        var more := TransportDisconnect(now);
        out := out + more;
      }
      out := hello + out;
    }

    method TransportDeliver(m: Message, sent: bool, now: U64) returns (out: seq<Output>)
      requires Valid()
      modifies this, state, sync, sync.buffered, actions, cache
      ensures Valid() && Stepped(View(), out) == DeliverStep(cache.layout, old(View()), m, sent, now)
    {
      if !open {
        return [];
      }
      var ok: bool;
      if m.kind == HostCommand {
        out := [SentUnsupported(nextMessageId, m.id, sent)];
        nextMessageId := WrapInc32(nextMessageId);
        ok := sent;
      } else {
        ok, out := HandleProtocolMessage(m, sent, now);
      }
      if !ok {
        var more := TransportDisconnect(now);
        out := out + more;
      }
    }

    method Activate(sent: bool, now: U64) returns (out: seq<Output>)
      requires Valid()
      modifies this, state, actions, cache
      ensures Valid() && Stepped(View(), out) == TapStep(cache.layout, old(View()), sent, now)
    {
      if state.activeScreen != Music {
        return [];
      }
      var begun := actions.BeginMusic(state, now);
      if !begun {
        return [];
      }
      out := [Begun];
      if open {
        var id := nextMessageId;
        nextMessageId := WrapInc32(nextMessageId);
        out := out + [SentAction(id, state.host.playing, sent)];
        if sent {
          actions.BindMessage(id);
        }
      }
      if !open || !sent {
        actions.FailPending(state, "HOST OFFLINE");
        out := out + [RolledBack];
      }
      cache.CaptureSynchronized(state, sync.revision, now);
    }

    method MoveItem(forward: bool, now: U64)
      requires Valid()
      modifies state, cache
      ensures Valid()
      ensures var s := old(state.View());
              View() == MovedTo(cache.layout, old(View()),
                                if forward then NextNotification(s) else PreviousNotification(s), now)
    {
      if state.activeScreen != Notifications {
        return;
      }
      var changed;
      if forward {
        changed := state.NotificationNext();
      } else {
        changed := state.NotificationPrevious();
      }
      if changed {
        cache.CaptureLocal(state, now);
      }
    }

    /** One event of the polling loop or of the input. */
    method Dispatch(e: Event) returns (out: seq<Output>)
      requires Valid()
      modifies this, state, sync, sync.buffered, actions, cache
      ensures Valid() && Stepped(View(), out) == Step(cache.layout, old(View()), e)
    {
      hide ConnectStep, DeliverStep, Disconnect, TapStep, MovedTo, C.CaptureApplication, A.PollTimeout, A.TimedOut;
      match e
      case Connect(helloSent, requestSent, now) =>
        out := TransportConnect(helloSent, requestSent, now);
      case Deliver(message, sent, now) =>
        out := TransportDeliver(message, sent, now);
      case BadFrame(now) =>
        out := TransportDisconnect(now);
      case PeerClosed(now) =>
        out := TransportDisconnect(now);
      case Tap(sent, now) =>
        out := Activate(sent, now);
      case Navigate(screen, now) =>
        state.activeScreen := screen;
        cache.CaptureLocal(state, now);
        out := [];
      case NextItem(now) =>
        MoveItem(true, now);
        out := [];
      case PreviousItem(now) =>
        MoveItem(false, now);
        out := [];
      case Poll(now) =>
        var failed := actions.Poll(state, now);
        out := if failed then [RolledBack] else [];
    }

    /**
     * The polling loop over everything that happens. From power-on it keeps the invariant, so the
     * theorems about runs are about this loop.
     */
    method Serve(events: seq<Event>) returns (out: seq<Output>)
      requires Valid()
      modifies this, state, sync, sync.buffered, actions, cache
      ensures Valid() && Stepped(View(), out) == Run(cache.layout, old(View()), events)
      ensures Inv(old(View())) ==> Inv(View())
    {
      out := [];
      ghost var start := View();
      for i := 0 to |events|
        invariant Valid()
        invariant Run(cache.layout, start, events) == Then(out, Run(cache.layout, View(), events[i..]))
      {
        ghost var before := View();
        ghost var earlier := out;
        var more := Dispatch(events[i]);
        out := out + more;
        assert events[i..] == [events[i]] + events[i + 1..];
        RunFront(cache.layout, before, events[i], events[i + 1..]);
        ThenThen(earlier, more, Run(cache.layout, View(), events[i + 1..]));
      }
      assert out + [] == out;
      if Inv(start) {
        RunInv(cache.layout, start, events);
      }
    }
  }
}
