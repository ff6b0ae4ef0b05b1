/** The cache record over whole runs: when it stays valid, and when offline data is marked stale. */
module CacheRuns {
  import opened Integers
  import opened WatchModel
  import opened Wire
  import P = WatchParse
  import R = Replication
  import A = WatchActions
  import C = WatchCache
  import opened RuntimeModel
  import opened RuntimeInvariants

  /** The record is valid and its list is the shown one, or nothing is shown yet. */
  predicate CacheOk(l: C.Layout, w: Watch) {
    && C.Valid(l, w.cache)
    && (w.cache.contents.notifications.stored == w.state.host.notifications.stored ||
        w.state.host.notifications.stored == 0)
  }

  /** A snapshot that is installed but leaves a gap: the state changes and nothing is captured. */
  predicate InstallsWithGap(w: Watch, e: Event) {
    e.Deliver? && w.open && InstallsSnapshot(e.message) &&
    R.Install(w.sync, P.ParseSnapshot(e.message.payload).value.0).syncing
  }

  lemma CapturedOk(l: C.Layout, w: Watch, now: U64)
    requires C.Valid(l, w.cache) && HostOk(w.state.host)
    ensures CacheOk(l, Captured(l, w, now))
  {}

  lemma DisconnectCacheOk(l: C.Layout, w: Watch, now: U64)
    requires CacheOk(l, w)
    ensures CacheOk(l, Disconnect(l, w, now).watch)
  {}

  /** Only an applied message or a snapshot with a gap changes the state. */
  lemma HandleChanges(sync: R.Sync, state: State, m: Message)
    ensures var h := R.Handle(sync, state, m);
            h.state == state || h.result == R.Changed ||
            (h.result == R.NeedsSnapshot && InstallsSnapshot(m) &&
             R.Install(sync, P.ParseSnapshot(m.payload).value.0).syncing)
  {
    hide P.ParseSnapshot, P.ParseMutation;
  }

  lemma AfterSyncCacheOk(l: C.Layout, w: Watch, h: R.Handled, sent: bool, now: U64)
    requires CacheOk(l, w) && HostOk(h.state.host)
    requires h.state == w.state || h.result == R.Changed
    ensures CacheOk(l, AfterSync(l, w, h, sent, now).watch)
  {
    if h.result == R.Changed {
      CapturedOk(l, w.(sync := h.sync, state := h.state.(connection := Online, stale := false, updatedAt := now)), now);
    }
  }

  lemma AfterReplyCacheOk(l: C.Layout, w: Watch, m: Message, now: U64)
    requires CacheOk(l, w) && HostOk(w.state.host)
    ensures CacheOk(l, AfterReply(l, w, m, now).watch)
  {
    if A.Answered(w.actions, m) {
      var (actions, state) := A.HandleResult(w.actions, w.state, m);
      CapturedOk(l, w.(actions := actions, state := state), now);
    }
  }

  lemma TapCacheOk(l: C.Layout, w: Watch, sent: bool, now: U64)
    requires CacheOk(l, w) && HostOk(w.state.host)
    ensures CacheOk(l, TapStep(l, w, sent, now).watch)
  {}

  lemma LocalCacheOk(l: C.Layout, w: Watch, e: Event)
    requires CacheOk(l, w) && HostOk(w.state.host)
    requires e.Navigate? || e.NextItem? || e.PreviousItem? || e.Poll?
    ensures CacheOk(l, Step(l, w, e).watch)
  {}

  /** Every event but a snapshot with a gap keeps the record valid. */
  lemma StepCacheOk(l: C.Layout, w: Watch, e: Event)
    requires Inv(w) && CacheOk(l, w) && !InstallsWithGap(w, e)
    ensures CacheOk(l, Step(l, w, e).watch)
  {
    hide R.Handle, Disconnect, AfterSync, AfterReply, TapStep, C.Valid;
    match e
    case Connect(helloSent, requestSent, now) =>
      if !w.open {
        DisconnectCacheOk(l, Bootstrap(Up(w), helloSent, requestSent).watch, now);
      }
    case Deliver(m, sent, now) =>
      if w.open {
        HandleChanges(w.sync, w.state, m);
        HandleInv(w, m);
        AfterReplyCacheOk(l, w, m, now);
        if m.kind != HostCommand && m.kind != CommandResult {
          AfterSyncCacheOk(l, w, R.Handle(w.sync, w.state, m), sent, now);
        }
        DisconnectCacheOk(l, HandleMessage(l, w, m, sent, now).watch, now);
      }
    case BadFrame(now) => DisconnectCacheOk(l, w, now);
    case PeerClosed(now) => DisconnectCacheOk(l, w, now);
    case Tap(sent, now) => TapCacheOk(l, w, sent, now);
    case _ => LocalCacheOk(l, w, e);
  }

  // ---------- exactly when it stays valid ----------

  /** The notification cursor an event captures on its own, without the list it points into. */
  function CapturedCursor(w: Watch, e: Event): Option<U8> {
    var s := w.state;
    match e
    case Navigate(_, _) => Some(s.host.notifications.active)
    case NextItem(_) =>
      if s.screen == Notifications && NextNotification(s).Some? then Some(s.host.notifications.active + 1) else None
    case PreviousItem(_) =>
      if s.screen == Notifications && PreviousNotification(s).Some? then Some(s.host.notifications.active - 1) else None
    case _ => None
  }

  /** It points into the list cached earlier, if anywhere. */
  predicate CursorFits(w: Watch, e: Event) {
    var cursor := CapturedCursor(w, e);
    cursor.None? || cursor.value == 0 || cursor.value < w.cache.contents.notifications.stored
  }

  lemma CapturedValid(l: C.Layout, w: Watch, now: U64)
    requires C.Valid(l, w.cache) && HostOk(w.state.host)
    ensures C.Valid(l, Captured(l, w, now).cache)
  {
    C.OperationsKeepValid(l, w.cache, w.state, w.sync.revision, now);
    hide C.Valid, C.CaptureSync;
  }

  lemma DisconnectValid(l: C.Layout, w: Watch, now: U64)
    requires C.Valid(l, w.cache)
    ensures C.Valid(l, Disconnect(l, w, now).watch.cache)
  {
    C.OperationsKeepValid(l, w.cache, w.state, w.sync.revision, now);
    hide C.Valid, C.MarkStale;
  }

  lemma SyncValid(l: C.Layout, w: Watch, h: R.Handled, sent: bool, now: U64)
    requires C.Valid(l, w.cache) && HostOk(h.state.host)
    ensures C.Valid(l, AfterSync(l, w, h, sent, now).watch.cache)
  {
    hide C.Valid, Captured;
    if h.result == R.Changed {
      var state := h.state.(connection := Online, stale := false, updatedAt := now);
      CapturedValid(l, w.(sync := h.sync, state := state), now);
    }
  }

  lemma ReplyValid(l: C.Layout, w: Watch, m: Message, now: U64)
    requires C.Valid(l, w.cache) && HostOk(w.state.host)
    ensures C.Valid(l, AfterReply(l, w, m, now).watch.cache)
  {
    hide C.Valid, Captured, A.HasStatus;
    if A.Answered(w.actions, m) {
      var (actions, state) := A.HandleResult(w.actions, w.state, m);
      CapturedValid(l, w.(actions := actions, state := state), now);
    }
  }

  lemma DeliverValid(l: C.Layout, w: Watch, m: Message, sent: bool, now: U64)
    requires Inv(w) && C.Valid(l, w.cache)
    ensures C.Valid(l, DeliverStep(l, w, m, sent, now).watch.cache)
  {
    HandleInv(w, m);
    SyncValid(l, w, R.Handle(w.sync, w.state, m), sent, now);
    ReplyValid(l, w, m, now);
    hide C.Valid, R.Handle, AfterSync, AfterReply, Disconnect;
    DisconnectValid(l, HandleMessage(l, w, m, sent, now).watch, now);
  }

  lemma TapValid(l: C.Layout, w: Watch, sent: bool, now: U64)
    requires C.Valid(l, w.cache) && HostOk(w.state.host)
    ensures C.Valid(l, TapStep(l, w, sent, now).watch.cache)
  {
    forall v: Watch | v.cache == w.cache && HostOk(v.state.host)
      ensures C.Valid(l, Captured(l, v, now).cache)
    {
      CapturedValid(l, v, now);
    }
    hide C.Valid, Captured;
  }

  lemma LocalValidIff(l: C.Layout, w: Watch, e: Event)
    requires Inv(w) && C.Valid(l, w.cache) && (e.Navigate? || e.NextItem? || e.PreviousItem? || e.Poll?)
    ensures C.Valid(l, Step(l, w, e).watch.cache) <==> CursorFits(w, e)
  {
    var s := w.state;
    var moved :=
      match e
      case Navigate(screen, _) => s.(screen := screen)
      case NextItem(_) => if NextNotification(s).Some? then NextNotification(s).value else s
      case PreviousItem(_) => if PreviousNotification(s).Some? then PreviousNotification(s).value else s
      case _ => s;
    C.CaptureApplicationValidIff(l, w.cache, moved, e.now);
    hide C.Valid, C.CaptureApplication, A.PollTimeout, A.TimedOut;
  }

  /** Whether the record is still valid after an event depends on the cursor it captures, and on nothing else. */
  lemma StepValidIff(l: C.Layout, w: Watch, e: Event)
    requires Inv(w) && C.Valid(l, w.cache)
    ensures C.Valid(l, Step(l, w, e).watch.cache) <==> CursorFits(w, e)
  {
    hide C.Valid, TapStep, DeliverStep, Disconnect;
    match e
    case Connect(helloSent, requestSent, now) =>
      if !w.open {
        DisconnectValid(l, Bootstrap(Up(w), helloSent, requestSent).watch, now);
      }
    case Deliver(m, sent, now) => DeliverValid(l, w, m, sent, now);
    case BadFrame(now) => DisconnectValid(l, w, now);
    case PeerClosed(now) => DisconnectValid(l, w, now);
    case Tap(sent, now) => TapValid(l, w, sent, now);
    case _ => LocalValidIff(l, w, e);
  }

  predicate ValidThroughout(l: C.Layout, w: Watch, events: seq<Event>)
    decreases |events|
  {
    C.Valid(l, w.cache) && (events == [] || ValidThroughout(l, Step(l, w, events[0]).watch, events[1..]))
  }

  predicate AllCursorsFit(l: C.Layout, w: Watch, events: seq<Event>)
    decreases |events|
  {
    events == [] || (CursorFits(w, events[0]) && AllCursorsFit(l, Step(l, w, events[0]).watch, events[1..]))
  }

  /**
   * In every run, the record would load at any moment if and only if every notification cursor
   * that is captured on its own points into the list cached by then.
   */
  lemma {:induction false} ValidThroughoutIff(l: C.Layout, w: Watch, events: seq<Event>)
    requires Inv(w) && C.Valid(l, w.cache)
    ensures ValidThroughout(l, w, events) <==> AllCursorsFit(l, w, events)
    decreases |events|
  {
    hide Step, Inv, C.Valid, CursorFits;
    if events == [] {
    } else {
      var next := Step(l, w, events[0]).watch;
      StepInv(l, w, events[0]);
      StepValidIff(l, w, events[0]);
      if C.Valid(l, next.cache) {
        ValidThroughoutIff(l, next, events[1..]);
      }
    }
  }

  // ---------- a simpler sufficient condition ----------

  predicate NoGapInstalls(l: C.Layout, w: Watch, events: seq<Event>)
    decreases |events|
  {
    events == [] || (!InstallsWithGap(w, events[0]) && NoGapInstalls(l, Step(l, w, events[0]).watch, events[1..]))
  }

  /**
   * From power-on with a valid record, or none, every run in which no snapshot leaves a gap ends
   * with a record that will load, and with the cached list the one shown.
   */
  lemma {:induction false} RecordStaysValid(l: C.Layout, w: Watch, events: seq<Event>)
    requires Inv(w) && CacheOk(l, w) && NoGapInstalls(l, w, events)
    ensures CacheOk(l, Run(l, w, events).watch)
    decreases |events|
  {
    if events == [] {
    } else {
      StepInv(l, w, events[0]);
      StepCacheOk(l, w, events[0]);
      RecordStaysValid(l, Step(l, w, events[0]).watch, events[1..]);
    }
  }

  /** Power-on leaves a valid record whose list is the one shown, whatever the storage held. */
  lemma BootCacheOk(l: C.Layout, stored: Option<C.Record>)
    ensures CacheOk(l, Boot(l, stored))
  {}

  /** The host domains stay captured together, so what a later power-on restores is all of them or none. */
  lemma {:induction false} VersionsStayEqual(l: C.Layout, w: Watch, events: seq<Event>)
    requires C.SameVersions(w.cache.contents)
    ensures C.SameVersions(Run(l, w, events).watch.cache.contents)
    decreases |events|
  {
    if events == [] {
    } else {
      StepVersionsEqual(l, w, events[0]);
      VersionsStayEqual(l, Step(l, w, events[0]).watch, events[1..]);
    }
  }

  lemma StepVersionsEqual(l: C.Layout, w: Watch, e: Event)
    requires C.SameVersions(w.cache.contents)
    ensures C.SameVersions(Step(l, w, e).watch.cache.contents)
  {
    match e
    case Connect(helloSent, requestSent, now) =>
      DisconnectVersionsEqual(l, Bootstrap(Up(w), helloSent, requestSent).watch, now);
    case Deliver(m, sent, now) =>
      HandleVersionsEqual(l, w, m, sent, now);
      DisconnectVersionsEqual(l, HandleMessage(l, w, m, sent, now).watch, now);
    case BadFrame(now) => DisconnectVersionsEqual(l, w, now);
    case PeerClosed(now) => DisconnectVersionsEqual(l, w, now);
    case _ =>
  }

  lemma HandleVersionsEqual(l: C.Layout, w: Watch, m: Message, sent: bool, now: U64)
    requires C.SameVersions(w.cache.contents)
    ensures C.SameVersions(HandleMessage(l, w, m, sent, now).watch.cache.contents)
  {
    hide R.Handle, A.HandleResult;
  }

  lemma DisconnectVersionsEqual(l: C.Layout, w: Watch, now: U64)
    requires C.SameVersions(w.cache.contents)
    ensures C.SameVersions(Disconnect(l, w, now).watch.cache.contents)
  {}

  /**
   * The gap is what breaks it. After a snapshot with two or more notifications that leaves a
   * gap, over a cached list of at most one, opening the list and moving to the second
   * notification writes a record that the next power-on refuses.
   */
  lemma GapSnapshotBreaksRecord(l: C.Layout, w: Watch, m: Message, now: U64)
    requires Inv(w) && CacheOk(l, w) && InstallsWithGap(w, Deliver(m, true, now))
    requires R.Handle(w.sync, w.state, m).state.host.notifications.stored >= 2
    requires R.Handle(w.sync, w.state, m).state.host.notifications.active == 0
    requires w.cache.contents.notifications.stored <= 1
    ensures var gap := Step(l, w, Deliver(m, true, now)).watch;
            var moved := Step(l, Step(l, gap, Navigate(Notifications, now)).watch, NextItem(now)).watch;
            && !C.Valid(l, moved.cache)
            && Boot(l, Some(moved.cache)) == Boot(l, None)
  {
    var h := R.Handle(w.sync, w.state, m);
    var gap := Step(l, w, Deliver(m, true, now)).watch;
    assert gap.cache == w.cache && gap.state == h.state;
    var shown := Step(l, gap, Navigate(Notifications, now)).watch;
    var moved := Step(l, shown, NextItem(now)).watch;
    assert moved.cache.contents.notifications.active == 1;
    assert moved.cache.contents.notifications.stored <= 1;
  }

  // ---------- staleness ----------

  /** The message is applied: the state is shown as online. */
  predicate Applies(w: Watch, e: Event) {
    e.Deliver? && w.open && e.message.kind != CommandResult && e.message.kind != HostCommand &&
    R.Handle(w.sync, w.state, e.message).result == R.Changed
  }

  predicate SomethingApplies(l: C.Layout, w: Watch, events: seq<Event>)
    decreases |events|
  {
    events != [] && (Applies(w, events[0]) || SomethingApplies(l, Step(l, w, events[0]).watch, events[1..]))
  }

  function Version(w: Watch): U32 {
    w.cache.contents.weatherMeta.version
  }

  /** Host data has been cached, and it is marked stale whenever the connection is down. */
  predicate StaleWhenDown(w: Watch) {
    Version(w) > 0 && (!w.open ==> w.state.stale)
  }

  lemma DisconnectStale(l: C.Layout, w: Watch, now: U64)
    requires Version(w) > 0 && (!w.open ==> w.state.stale)
    ensures StaleWhenDown(Disconnect(l, w, now).watch) && Version(Disconnect(l, w, now).watch) == Version(w)
  {}

  lemma CapturedVersion(l: C.Layout, w: Watch, now: U64)
    requires Version(w) < U32_MAX
    ensures Version(Captured(l, w, now)) == Version(w) + 1
    ensures Captured(l, w, now) == w.(cache := Captured(l, w, now).cache)
  {}

  lemma VersionAfterSync(l: C.Layout, w: Watch, h: R.Handled, sent: bool, now: U64)
    requires Version(w) < U32_MAX
    ensures Version(w) <= Version(AfterSync(l, w, h, sent, now).watch) <= Version(w) + 1
    ensures h.result == R.Changed ==> Version(AfterSync(l, w, h, sent, now).watch) == Version(w) + 1
    ensures h.result == R.Changed ==> AfterSync(l, w, h, sent, now).accepted
    ensures AfterSync(l, w, h, sent, now).watch.open == w.open
  {
    if h.result == R.Changed {
      var state := h.state.(connection := Online, stale := false, updatedAt := now);
      CapturedVersion(l, w.(sync := h.sync, state := state), now);
    }
    hide Captured;
  }

  lemma VersionAfterReply(l: C.Layout, w: Watch, m: Message, now: U64)
    requires Version(w) < U32_MAX
    ensures Version(w) <= Version(AfterReply(l, w, m, now).watch) <= Version(w) + 1
    ensures AfterReply(l, w, m, now).watch.open == w.open
  {
    hide A.HandleResult, A.HasStatus, C.Sum;
  }

  lemma VersionDisconnect(l: C.Layout, w: Watch, now: U64)
    ensures Version(Disconnect(l, w, now).watch) == Version(w)
  {}

  /** What an event may do to the version, and that it leaves data shown while down marked stale. */
  predicate VersionStep(w: Watch, after: Watch) {
    && Version(w) <= Version(after) <= Version(w) + 1
    && (StaleWhenDown(w) ==> StaleWhenDown(after))
  }

  lemma SettleVersion(l: C.Layout, w: Watch, h: HandledMessage, now: U64)
    requires h.watch.open && Version(w) <= Version(h.watch) <= Version(w) + 1
    ensures VersionStep(w, Settle(l, h, now).watch)
    ensures Version(h.watch) > 0 ==> StaleWhenDown(Settle(l, h, now).watch)
  {
    VersionDisconnect(l, h.watch, now);
    if Version(h.watch) > 0 {
      DisconnectStale(l, h.watch, now);
    }
  }

  lemma DeliverVersion(l: C.Layout, w: Watch, m: Message, sent: bool, now: U64)
    requires Version(w) < U32_MAX && w.open
    ensures VersionStep(w, DeliverStep(l, w, m, sent, now).watch)
    ensures Applies(w, Deliver(m, sent, now)) ==> StaleWhenDown(DeliverStep(l, w, m, sent, now).watch)
  {
    VersionAfterSync(l, w, R.Handle(w.sync, w.state, m), sent, now);
    VersionAfterReply(l, w, m, now);
    SettleVersion(l, w, HandleMessage(l, w, m, sent, now), now);
  }

  lemma DownVersion(l: C.Layout, w: Watch, now: U64)
    ensures VersionStep(w, Disconnect(l, w, now).watch)
  {
    VersionDisconnect(l, w, now);
    if StaleWhenDown(w) {
      DisconnectStale(l, w, now);
    }
  }

  lemma TapVersion(l: C.Layout, w: Watch, sent: bool, now: U64)
    requires Version(w) < U32_MAX
    ensures VersionStep(w, TapStep(l, w, sent, now).watch)
  {
    TapCaptures(l, w, sent, now);
    hide TapStep;
  }

  lemma TapCaptures(l: C.Layout, w: Watch, sent: bool, now: U64)
    requires Version(w) < U32_MAX
    ensures var after := TapStep(l, w, sent, now).watch;
            && Version(w) <= Version(after) <= Version(w) + 1
            && after.open == w.open && after.state.stale == w.state.stale
  {
    forall v: Watch | Version(v) == Version(w)
      ensures Version(Captured(l, v, now)) == Version(w) + 1
      ensures Captured(l, v, now) == v.(cache := Captured(l, v, now).cache)
    {
      CapturedVersion(l, v, now);
    }
    hide Captured;
  }

  lemma LocalVersion(l: C.Layout, w: Watch, e: Event)
    requires Version(w) < U32_MAX && (e.Tap? || e.Navigate? || e.NextItem? || e.PreviousItem? || e.Poll?)
    ensures VersionStep(w, Step(l, w, e).watch)
  {
    if e.Tap? {
      TapVersion(l, w, e.sent, e.now);
    }
    hide C.Sum, A.TimedOut, TapStep;
  }

  /** Each event raises the version of the cached data by at most one; an applied message raises it. */
  lemma StepVersion(l: C.Layout, w: Watch, e: Event)
    requires Version(w) < U32_MAX
    ensures VersionStep(w, Step(l, w, e).watch)
    ensures Applies(w, e) ==> StaleWhenDown(Step(l, w, e).watch)
  {
    match e
    case Connect(helloSent, requestSent, now) =>
      if !w.open {
        SettleVersion(l, w, Bootstrap(Up(w), helloSent, requestSent), now);
      }
    case Deliver(m, sent, now) =>
      if w.open {
        DeliverVersion(l, w, m, sent, now);
      }
    case BadFrame(now) => DownVersion(l, w, now);
    case PeerClosed(now) => DownVersion(l, w, now);
    case _ => LocalVersion(l, w, e);
  }

  /** Once any message has been applied, data shown while the connection is down is marked stale. */
  lemma {:induction false} OfflineDataIsStale(l: C.Layout, w: Watch, events: seq<Event>)
    requires Inv(w) && Version(w) + |events| <= U32_MAX
    requires StaleWhenDown(w) || SomethingApplies(l, w, events)
    ensures StaleWhenDown(Run(l, w, events).watch)
    ensures var end := Run(l, w, events).watch;
            end.state.connection == Offline ==> end.state.stale
    decreases |events|
  {
    RunInv(l, w, events);
    if events == [] {
    } else {
      StepInv(l, w, events[0]);
      StepVersion(l, w, events[0]);
      OfflineDataIsStale(l, Step(l, w, events[0]).watch, events[1..]);
    }
  }
}
