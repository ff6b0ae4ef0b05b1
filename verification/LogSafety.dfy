/**
 * The central promise of replication, over whole runs of the watch: once a snapshot is installed
 * on the current connection, the host data is a prefix of what the host has logged.
 */
module LogSafety {
  import opened Integers
  import opened WatchModel
  import opened Wire
  import opened WatchParse
  import R = Replication
  import opened ReplicationLaws
  import A = WatchActions
  import C = WatchCache
  import opened RuntimeModel
  import opened RuntimeInvariants
  import ActionRuns

  /**
   * A watch together with what an observer of the connection knows: the history the host serves
   * on it, the host data when it came up, and whether a snapshot has been installed since.
   * `touched`: the music flag may be the user's. `scrolled`: the notification cursor may be.
   */
  datatype Track = Track(
    watch: Watch,
    history: History,
    entry: HostData,
    installed: bool,
    touched: bool,
    scrolled: bool)

  /** The same host data, up to what the user may have changed locally. */
  predicate Agrees(h: HostData, g: HostData, touched: bool, scrolled: bool) {
    && (h.steps, h.temperature, h.condition, h.title) == (g.steps, g.temperature, g.condition, g.title)
    && (touched || h.playing == g.playing)
    && h.notifications.(active := 0) == g.notifications.(active := 0)
    && (scrolled || h.notifications.active == g.notifications.active)
  }

  /** Nothing local: the same host data outright. */
  lemma AgreesExactly(h: HostData, g: HostData)
    ensures Agrees(h, g, false, false) <==> h == g
  {
    if Agrees(h, g, false, false) {
      assert h.notifications == h.notifications.(active := 0).(active := h.notifications.active);
    }
  }

  /** A message the host of this history may send, or one the watch cannot read. */
  predicate Honest(h: History, m: Message) {
    && (m.kind == SyncResponse && ParseSnapshot(m.payload).Some? ==>
          var (revision, host) := ParseSnapshot(m.payload).value;
          revision <= |h.log| && host == Fold(h, revision))
    && ((m.kind == StateSet || m.kind == StatePatch) && ParseMutation(m).Some? ==>
          FromLog(h, ParseMutation(m).value.revision, ParseMutation(m).value.change))
  }

  function TrackStep(l: C.Layout, t: Track, e: Event, served: History): Track {
    var after := Step(l, t.watch, e).watch;
    if e.Connect? && !t.watch.open then Track(after, served, t.watch.state.host, false, false, false)
    else if e.Deliver? && t.watch.open && InstallsSnapshot(e.message)
    then Track(after, t.history, t.entry, true, after.actions.pending, false)
    else
      Track(after, t.history, t.entry, t.installed,
            t.touched || (e.Tap? && t.watch.state.screen == Music),
            t.scrolled || e.NextItem? || e.PreviousItem?)
  }

  /** What the host data is compared with: the log prefix, or what there was before the snapshot. */
  function Reference(t: Track): HostData
    requires t.installed ==> t.watch.sync.revision <= |t.history.log|
  {
    if t.installed then Fold(t.history, t.watch.sync.revision) else t.entry
  }

  /**
   * While the connection is open: everything buffered is from the log; after a snapshot the host
   * data is the fold of the first `revision` log entries; before one it is what it was when the
   * connection came up, nothing has been applied and the watch does not show itself online.
   */
  predicate Safe(t: Track) {
    && Inv(t.watch)
    && (t.watch.open ==>
          && BufferFromLog(t.history, t.watch.sync.buffer)
          && (t.installed ==> t.watch.sync.revision <= |t.history.log|)
          && Agrees(t.watch.state.host, Reference(t), t.touched, t.scrolled)
          && Linked(t.watch, t.installed)
          && (!t.touched ==> !t.watch.actions.pending))
  }

  /** Replication alone, from a safe state: the data stays in step with the log. */
  predicate InStep(
    history: History, sync: R.Sync, host: HostData,
    installed: bool, entry: HostData, touched: bool, scrolled: bool)
  {
    && BufferFromLog(history, sync.buffer)
    && (installed ==> sync.revision <= |history.log|)
    && Agrees(host, if installed then Fold(history, sync.revision) else entry, touched, scrolled)
    && (!installed ==> sync.syncing)
  }

  lemma AppliedAgrees(h: HostData, g: HostData, c: Change, touched: bool, scrolled: bool)
    requires Agrees(h, g, touched, scrolled)
    ensures Agrees(Applied(h, c), Applied(g, c), touched, scrolled)
  {}

  lemma MutationInStep(
    history: History, sync: R.Sync, state: State, m: Mutation,
    installed: bool, entry: HostData, touched: bool, scrolled: bool)
    requires SyncOk(sync) && FromLog(history, m.revision, m.change)
    requires InStep(history, sync, state.host, installed, entry, touched, scrolled)
    ensures var h := R.HandleMutation(sync, state, m);
            && InStep(history, h.sync, h.state.host, installed, entry, touched, scrolled)
            && (h.result == R.Changed ==> installed)
  {
    if !sync.syncing && m.revision == sync.revision + 1 {
      AppliedAgrees(state.host, Fold(history, sync.revision), m.change, touched, scrolled);
    }
  }

  lemma SnapshotInStep(history: History, sync: R.Sync, state: State, revision: U64, host: HostData, entry: HostData)
    requires BufferFromLog(history, sync.buffer) && revision <= |history.log| && host == Fold(history, revision)
    ensures var h := R.HandleSnapshot(sync, state, revision, host);
            InStep(history, h.sync, h.state.host, true, entry, false, false)
  {
    ReplayOfLog(history, revision, sync.buffer);
    var last := R.RunEnd(revision, sync.buffer);
    assert forall r :: r in R.Beyond(sync.buffer, last) ==> R.Beyond(sync.buffer, last)[r] == sync.buffer[r];
    AgreesExactly(Fold(history, last), Fold(history, last));
  }

  /** An honest message, through replication. */
  lemma HandleInStep(t: Track, m: Message)
    requires Safe(t) && t.watch.open && Honest(t.history, m)
    ensures var h := R.Handle(t.watch.sync, t.watch.state, m);
            if InstallsSnapshot(m)
            then InStep(t.history, h.sync, h.state.host, true, t.entry, false, false)
            else InStep(t.history, h.sync, h.state.host, t.installed, t.entry, t.touched, t.scrolled) &&
                 (h.result == R.Changed ==> t.installed)
  {
    if InstallsSnapshot(m) {
      var (revision, host) := ParseSnapshot(m.payload).value;
      SnapshotInStep(t.history, t.watch.sync, t.watch.state, revision, host, t.entry);
    } else if (m.kind == StateSet || m.kind == StatePatch) && ParseMutation(m).Some? {
      MutationInStep(t.history, t.watch.sync, t.watch.state, ParseMutation(m).value,
                     t.installed, t.entry, t.touched, t.scrolled);
    }
  }

  /** Safe data stays safe when only the flags of the user grow. */
  lemma AgreesWeaker(h: HostData, g: HostData, touched: bool, scrolled: bool, touched': bool, scrolled': bool)
    requires Agrees(h, g, touched, scrolled) && (touched ==> touched') && (scrolled ==> scrolled')
    ensures Agrees(h, g, touched', scrolled')
  {}

  lemma AfterSyncSafe(
    l: C.Layout, t: Track, h: R.Handled, sent: bool, now: U64,
    installed: bool, touched: bool, scrolled: bool)
    requires Inv(t.watch) && t.watch.open
    requires KeepsShape(t.watch, h)
    requires InStep(t.history, h.sync, h.state.host, installed, t.entry, touched, scrolled)
    requires h.result == R.Changed ==> installed
    requires !installed ==> t.watch.state.connection == Connecting
    requires !touched ==> !t.watch.actions.pending
    ensures var after := AfterSync(l, t.watch, h, sent, now).watch;
            Safe(Track(after, t.history, t.entry, installed, touched, scrolled)) &&
            after.actions == t.watch.actions
  {
    AfterSyncInv(l, t.watch, h, sent, now);
  }

  lemma AfterReplySafe(l: C.Layout, t: Track, m: Message, now: U64)
    requires Safe(t) && t.watch.open
    ensures Safe(t.(watch := AfterReply(l, t.watch, m, now).watch))
  {
    AfterReplyInv(l, t.watch, m, now);
    hide Inv, Fold, BufferFromLog, A.HasStatus, C.CaptureSync;
  }

  /** A closed connection is safe whatever came before. */
  lemma SettleSafe(l: C.Layout, t: Track, h: HandledMessage, now: U64)
    requires Safe(t.(watch := h.watch))
    ensures Safe(t.(watch := Settle(l, h, now).watch))
  {
    DisconnectInv(l, h.watch, now);
  }

  lemma SnapshotDeliverSafe(l: C.Layout, t: Track, m: Message, sent: bool, now: U64)
    requires Safe(t) && t.watch.open && Honest(t.history, m) && InstallsSnapshot(m)
    ensures var h := AfterSync(l, t.watch, R.Handle(t.watch.sync, t.watch.state, m), sent, now);
            var after := Settle(l, h, now).watch;
            Safe(Track(after, t.history, t.entry, true, after.actions.pending, false))
  {
    var handled := R.Handle(t.watch.sync, t.watch.state, m);
    var pending := t.watch.actions.pending;
    HandleInStep(t, m);
    HandleInv(t.watch, m);
    hide R.Handle, Honest, Fold, Disconnect, Linked, BufferFromLog;
    AgreesWeaker(handled.state.host, Fold(t.history, handled.sync.revision), false, false, pending, false);
    AfterSyncSafe(l, t, handled, sent, now, true, pending, false);
    var h := AfterSync(l, t.watch, handled, sent, now);
    SettleSafe(l, Track(h.watch, t.history, t.entry, true, pending, false), h, now);
  }

  lemma OtherDeliverSafe(l: C.Layout, t: Track, m: Message, sent: bool, now: U64)
    requires Safe(t) && t.watch.open && Honest(t.history, m) && !InstallsSnapshot(m)
    ensures var h := AfterSync(l, t.watch, R.Handle(t.watch.sync, t.watch.state, m), sent, now);
            Safe(t.(watch := Settle(l, h, now).watch))
  {
    var handled := R.Handle(t.watch.sync, t.watch.state, m);
    HandleInStep(t, m);
    HandleInv(t.watch, m);
    AfterSyncSafe(l, t, handled, sent, now, t.installed, t.touched, t.scrolled);
    SettleSafe(l, t, AfterSync(l, t.watch, handled, sent, now), now);
  }

  lemma ReplyDeliverSafe(l: C.Layout, t: Track, m: Message, sent: bool, now: U64)
    requires Safe(t) && t.watch.open && (m.kind == HostCommand || m.kind == CommandResult)
    ensures Safe(t.(watch := Settle(l, HandleMessage(l, t.watch, m, sent, now), now).watch))
  {
    var h := HandleMessage(l, t.watch, m, sent, now);
    AfterReplySafe(l, t, m, now);
    SettleSafe(l, t, h, now);
  }

  lemma DeliverSafe(l: C.Layout, t: Track, m: Message, sent: bool, now: U64, served: History)
    requires Safe(t) && t.watch.open && Honest(t.history, m)
    ensures Safe(TrackStep(l, t, Deliver(m, sent, now), served))
  {
    hide Safe, Honest, R.Handle, AfterSync, AfterReply, Settle;
    if InstallsSnapshot(m) {
      SnapshotDeliverSafe(l, t, m, sent, now);
    } else if m.kind == HostCommand || m.kind == CommandResult {
      ReplyDeliverSafe(l, t, m, sent, now);
    } else {
      OtherDeliverSafe(l, t, m, sent, now);
    }
  }

  lemma ConnectSafe(l: C.Layout, t: Track, helloSent: bool, requestSent: bool, now: U64, served: History)
    requires Safe(t) && !t.watch.open
    ensures Safe(TrackStep(l, t, Connect(helloSent, requestSent, now), served))
  {
    var up := Track(Up(t.watch), served, t.watch.state.host, false, false, false);
    assert t.watch.sync.buffer == map[];
    assert Safe(up);
    var request := Bootstrap(Up(t.watch), helloSent, requestSent);
    assert Safe(up.(watch := request.watch));
    SettleSafe(l, up, request, now);
  }

  /** What a local event leaves alone: replication, the connection, and the host's part of the data. */
  predicate LocalOnly(w: Watch, after: Watch, touched: bool, scrolled: bool) {
    && after.sync == w.sync && after.open == w.open && after.state.connection == w.state.connection
    && Agrees(after.state.host, w.state.host, touched, scrolled)
    && (!touched ==> (after.actions.pending ==> w.actions.pending))
  }

  lemma TapLocal(l: C.Layout, w: Watch, sent: bool, now: U64)
    ensures LocalOnly(w, TapStep(l, w, sent, now).watch, w.state.screen == Music, false)
  {}

  lemma PollLocal(l: C.Layout, w: Watch, now: U64)
    ensures LocalOnly(w, Step(l, w, Poll(now)).watch, w.actions.pending, false)
  {}

  lemma MoveLocal(l: C.Layout, w: Watch, moved: Option<State>, now: U64)
    requires moved == NextNotification(w.state) || moved == PreviousNotification(w.state)
    ensures LocalOnly(w, MovedTo(l, w, moved, now), false, true)
  {}

  lemma SafeLocally(t: Track, after: Watch, touched: bool, scrolled: bool)
    requires Safe(t) && Inv(after) && LocalOnly(t.watch, after, touched, scrolled)
    ensures Safe(Track(after, t.history, t.entry, t.installed, t.touched || touched, t.scrolled || scrolled))
  {}

  lemma TapSafe(l: C.Layout, t: Track, sent: bool, now: U64, served: History)
    requires Safe(t)
    ensures Safe(TrackStep(l, t, Tap(sent, now), served))
  {
    LocalInv(l, t.watch, Tap(sent, now));
    hide Safe, TapStep;
    TapLocal(l, t.watch, sent, now);
    SafeLocally(t, TapStep(l, t.watch, sent, now).watch, t.watch.state.screen == Music, false);
  }

  lemma MoveSafe(l: C.Layout, t: Track, e: Event, served: History)
    requires Safe(t) && (e.NextItem? || e.PreviousItem?)
    ensures Safe(TrackStep(l, t, e, served))
  {
    LocalInv(l, t.watch, e);
    hide Safe, MovedTo;
    var s := t.watch.state;
    MoveLocal(l, t.watch, if e.NextItem? then NextNotification(s) else PreviousNotification(s), e.now);
    SafeLocally(t, Step(l, t.watch, e).watch, false, true);
  }

  lemma PollSafe(l: C.Layout, t: Track, now: U64, served: History)
    requires Safe(t)
    ensures Safe(TrackStep(l, t, Poll(now), served))
  {
    LocalInv(l, t.watch, Poll(now));
    if t.watch.open {
      PollLocal(l, t.watch, now);
      SafeLocally(t, Step(l, t.watch, Poll(now)).watch, t.watch.actions.pending, false);
    }
  }

  lemma NavigateSafe(l: C.Layout, t: Track, screen: Screen, now: U64, served: History)
    requires Safe(t)
    ensures Safe(TrackStep(l, t, Navigate(screen, now), served))
  {
    LocalInv(l, t.watch, Navigate(screen, now));
    SafeLocally(t, Step(l, t.watch, Navigate(screen, now)).watch, false, false);
  }

  predicate Admissible(t: Track, e: Event) {
    e.Deliver? && t.watch.open ==> Honest(t.history, e.message)
  }

  lemma StepSafe(l: C.Layout, t: Track, e: Event, served: History)
    requires Safe(t) && Admissible(t, e)
    ensures Safe(TrackStep(l, t, e, served))
  {
    match e
    case Connect(helloSent, requestSent, now) =>
      if !t.watch.open {
        ConnectSafe(l, t, helloSent, requestSent, now, served);
      }
    case Deliver(m, sent, now) =>
      if t.watch.open {
        DeliverSafe(l, t, m, sent, now, served);
      }
    case BadFrame(now) => DisconnectInv(l, t.watch, now);
    case PeerClosed(now) => DisconnectInv(l, t.watch, now);
    case Tap(sent, now) => TapSafe(l, t, sent, now, served);
    case NextItem(_) => MoveSafe(l, t, e, served);
    case PreviousItem(_) => MoveSafe(l, t, e, served);
    case Navigate(screen, now) => NavigateSafe(l, t, screen, now, served);
    case Poll(now) => PollSafe(l, t, now, served);
  }

  /** A run with, for each event, the history a host would serve if the event brought a connection up. */
  function TrackRun(l: C.Layout, t: Track, events: seq<(Event, History)>): Track
    decreases |events|
  {
    if events == [] then t else TrackRun(l, TrackStep(l, t, events[0].0, events[0].1), events[1..])
  }

  predicate AllAdmissible(l: C.Layout, t: Track, events: seq<(Event, History)>)
    decreases |events|
  {
    events == [] ||
    (Admissible(t, events[0].0) && AllAdmissible(l, TrackStep(l, t, events[0].0, events[0].1), events[1..]))
  }

  /**
   * Log-prefix safety: in every run, with any loss, duplication, reordering, gaps, errors, user
   * actions and reconnections, even to hosts with other histories, the state stays safe.
   */
  lemma {:induction false} RunsAreSafe(l: C.Layout, t: Track, events: seq<(Event, History)>)
    requires Safe(t) && AllAdmissible(l, t, events)
    ensures Safe(TrackRun(l, t, events))
    decreases |events|
  {
    if events == [] {
    } else {
      StepSafe(l, t, events[0].0, events[0].1);
      RunsAreSafe(l, TrackStep(l, t, events[0].0, events[0].1), events[1..]);
    }
  }

  /**
   * From power-on: while the connection is open, the host data is the fold of the first
   * `revision` entries of the log once a snapshot has been installed on it, and what it was when
   * the connection came up before that; up to the music flag if the user has tapped since, and up
   * to the notification cursor if the user has scrolled since.
   */
  lemma HostDataIsLogPrefix(l: C.Layout, stored: Option<C.Record>, any: History, events: seq<(Event, History)>)
    requires AllAdmissible(l, Track(Boot(l, stored), any, INITIAL.host, false, false, false), events)
    ensures var t := TrackRun(l, Track(Boot(l, stored), any, INITIAL.host, false, false, false), events);
            t.watch.open ==>
              && (t.installed ==> t.watch.sync.revision <= |t.history.log|)
              && Agrees(t.watch.state.host, Reference(t), t.touched, t.scrolled)
              && (!t.touched && !t.scrolled ==> t.watch.state.host == Reference(t))
  {
    var start := Track(Boot(l, stored), any, INITIAL.host, false, false, false);
    BootInv(l, stored);
    RunsAreSafe(l, start, events);
    var t := TrackRun(l, start, events);
    if t.watch.open {
      AgreesExactly(t.watch.state.host, Reference(t));
    }
  }

  /**
   * After a rollback that leaves the connection up, the host data is the log prefix outright, but
   * for the notification cursor, exactly when the log has the music flag of before the tap.
   */
  lemma RollbackInStepIff(l: C.Layout, t: Track, e: Event, served: History, after: Track)
    requires Safe(t) && Admissible(t, e) && t.watch.actions.pending && after == TrackStep(l, t, e, served)
    requires RolledBack in Step(l, t.watch, e).out && after.watch.open
    ensures Safe(after)
    ensures Agrees(after.watch.state.host, Reference(after), false, after.scrolled) <==>
            t.watch.actions.previousPlaying == Reference(after).playing
  {
    StepSafe(l, t, e, served);
    ActionRuns.StepOutcome(l, t.watch, e);
    hide Step, Reference, Inv, Linked;
  }
}
