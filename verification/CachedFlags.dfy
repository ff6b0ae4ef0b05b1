/** What the record says beyond the data: the stale flags of its domains, and the music flag. */
module CachedFlags {
  import opened Integers
  import opened WatchModel
  import opened Wire
  import P = WatchParse
  import R = Replication
  import A = WatchActions
  import C = WatchCache
  import opened RuntimeModel
  import opened RuntimeInvariants
  import opened RuntimeRuns
  import opened ActionRuns
  import opened CacheRuns

  // ---------- the stale flags of the cached domains ----------

  /** The flags of the four cached host domains. */
  predicate AllMarked(c: C.Contents) {
    c.weatherMeta.stale && c.activityMeta.stale && c.notificationsMeta.stale && c.musicMeta.stale
  }

  predicate FlagsStale(w: Watch) {
    AllMarked(w.cache.contents)
  }

  /**
   * The flags of the cached domains say less: a tap on the music screen while offline recaptures
   * everything and clears them, although the state itself stays stale.
   */
  lemma OfflineTapClearsCachedFlags(l: C.Layout, w: Watch, sent: bool, now: U64)
    requires Inv(w) && !w.open && w.state.screen == Music
    ensures var after := Step(l, w, Tap(sent, now)).watch;
            && after.state.stale == w.state.stale
            && after.state.host == w.state.host
            && !after.cache.contents.weatherMeta.stale && !after.cache.contents.activityMeta.stale
            && !after.cache.contents.notificationsMeta.stale && !after.cache.contents.musicMeta.stale
  {}

  /** A tap that begins an action; what it leads to is captured. */
  predicate TapTaken(w: Watch, e: Event) {
    e.Tap? && w.state.screen == Music && !w.actions.pending
  }

  /**
   * Whether the flags are without their mark after an event: a connection that goes down marks
   * them if anything was ever captured, and a tap clears them.
   */
  function Unmarked(w: Watch, e: Event, unmarked: bool): bool {
    if Version(w) > 0 && GoesDown(w, e) then false else unmarked || TapTaken(w, e)
  }

  function UnmarkedAtEnd(l: C.Layout, w: Watch, events: seq<Event>, unmarked: bool): bool
    decreases |events|
  {
    if events == [] then unmarked
    else UnmarkedAtEnd(l, Step(l, w, events[0]).watch, events[1..], Unmarked(w, events[0], unmarked))
  }

  /** While the connection is down, or as long as nothing was captured, that is what the flags are. */
  predicate FlagsFollow(w: Watch, unmarked: bool) {
    !w.open || Version(w) == 0 ==> (FlagsStale(w) <==> !unmarked)
  }

  /** What an event does to the record's flags: it captures everything, marks them, or leaves them alone. */
  predicate FlagsStep(w: Watch, after: Watch) {
    || (Version(after) == Version(w) && (FlagsStale(after) <==> FlagsStale(w)))
    || (Version(after) == Version(w) + 1 && !FlagsStale(after))
  }

  lemma CapturedFlags(l: C.Layout, w: Watch, now: U64)
    requires Version(w) < U32_MAX
    ensures FlagsStep(w, Captured(l, w, now)) && Version(Captured(l, w, now)) == Version(w) + 1
    ensures Captured(l, w, now) == w.(cache := Captured(l, w, now).cache)
  {
    hide C.Sum;
  }

  lemma SyncFlags(l: C.Layout, w: Watch, h: R.Handled, sent: bool, now: U64)
    requires w.open && Version(w) < U32_MAX
    ensures var r := AfterSync(l, w, h, sent, now);
            FlagsStep(w, r.watch) && r.watch.open && (!r.accepted ==> r.watch.cache == w.cache)
  {
    if h.result == R.Changed {
      var state := h.state.(connection := Online, stale := false, updatedAt := now);
      CapturedFlags(l, w.(sync := h.sync, state := state), now);
    }
    hide Captured;
  }

  lemma ReplyFlags(l: C.Layout, w: Watch, m: Message, now: U64)
    requires w.open && Version(w) < U32_MAX
    ensures var r := AfterReply(l, w, m, now);
            FlagsStep(w, r.watch) && r.watch.open && r.accepted
  {
    if A.Answered(w.actions, m) {
      var (actions, state) := A.HandleResult(w.actions, w.state, m);
      CapturedFlags(l, w.(actions := actions, state := state), now);
    }
    hide Captured, A.HandleResult;
  }

  lemma HandleFlags(l: C.Layout, w: Watch, m: Message, sent: bool, now: U64)
    requires w.open && Version(w) < U32_MAX
    ensures var r := HandleMessage(l, w, m, sent, now);
            FlagsStep(w, r.watch) && r.watch.open && (!r.accepted ==> r.watch.cache == w.cache)
  {
    SyncFlags(l, w, R.Handle(w.sync, w.state, m), sent, now);
    ReplyFlags(l, w, m, now);
    hide R.Handle, AfterSync, AfterReply;
  }

  lemma DownFlags(l: C.Layout, w: Watch, now: U64)
    requires w.open
    ensures var after := Disconnect(l, w, now).watch;
            && !after.open && Version(after) == Version(w)
            && (FlagsStale(after) <==> Version(w) > 0 || FlagsStale(w))
  {
    hide C.Sum;
  }

  lemma SettleFlags(l: C.Layout, w: Watch, h: HandledMessage, now: U64, unmarked: bool)
    requires h.watch.open && FlagsStep(w, h.watch) && (!h.accepted ==> h.watch.cache == w.cache)
    requires Version(w) == 0 ==> (FlagsStale(w) <==> !unmarked)
    ensures var after := Settle(l, h, now).watch;
            && after.open == h.accepted
            && FlagsFollow(after, if Version(w) > 0 && !h.accepted then false else unmarked)
  {
    if !h.accepted {
      DownFlags(l, h.watch, now);
    }
    hide Disconnect;
  }

  lemma ConnectFlags(l: C.Layout, w: Watch, helloSent: bool, requestSent: bool, now: U64, unmarked: bool)
    requires !w.open && FlagsFollow(w, unmarked)
    ensures var e := Connect(helloSent, requestSent, now);
            FlagsFollow(Step(l, w, e).watch, Unmarked(w, e, unmarked))
  {
    var request := Bootstrap(Up(w), helloSent, requestSent);
    SettleFlags(l, w, request, now, unmarked);
    hide Settle;
  }

  lemma DeliverFlags(l: C.Layout, w: Watch, m: Message, sent: bool, now: U64, unmarked: bool)
    requires w.open && Version(w) < U32_MAX && FlagsFollow(w, unmarked)
    ensures var e := Deliver(m, sent, now);
            FlagsFollow(Step(l, w, e).watch, Unmarked(w, e, unmarked))
  {
    HandleFlags(l, w, m, sent, now);
    RefusesIff(l, w, m, sent, now);
    SettleFlags(l, w, HandleMessage(l, w, m, sent, now), now, unmarked);
    hide HandleMessage, Settle, Refuses;
  }

  lemma TapFlags(l: C.Layout, w: Watch, sent: bool, now: U64)
    requires Version(w) < U32_MAX
    ensures var after := TapStep(l, w, sent, now).watch;
            && after.open == w.open
            && (if TapTaken(w, Tap(sent, now)) then Version(after) == Version(w) + 1 && !FlagsStale(after)
                else after == w)
  {
    forall v: Watch | v.cache == w.cache
      ensures Version(Captured(l, v, now)) == Version(w) + 1 && !FlagsStale(Captured(l, v, now))
      ensures Captured(l, v, now) == v.(cache := Captured(l, v, now).cache)
    {
      CapturedFlags(l, v, now);
    }
    hide Captured;
  }

  lemma LocalFlags(l: C.Layout, w: Watch, e: Event)
    requires e.Navigate? || e.NextItem? || e.PreviousItem? || e.Poll?
    ensures var after := Step(l, w, e).watch;
            after.open == w.open && Version(after) == Version(w) && (FlagsStale(after) <==> FlagsStale(w))
  {
    hide C.Sum;
  }

  lemma StepFlags(l: C.Layout, w: Watch, e: Event, unmarked: bool)
    requires Inv(w) && Version(w) < U32_MAX && FlagsFollow(w, unmarked)
    ensures FlagsFollow(Step(l, w, e).watch, Unmarked(w, e, unmarked))
  {
    hide TapStep, Disconnect, Settle, HandleMessage, FlagsStale;
    match e
    case Connect(helloSent, requestSent, now) =>
      if !w.open {
        ConnectFlags(l, w, helloSent, requestSent, now, unmarked);
      }
    case Deliver(m, sent, now) =>
      if w.open {
        DeliverFlags(l, w, m, sent, now, unmarked);
      }
    case BadFrame(now) => ClosingFlags(l, w, now, unmarked);
    case PeerClosed(now) => ClosingFlags(l, w, now, unmarked);
    case Tap(sent, now) => TapFlags(l, w, sent, now);
    case _ => LocalFlags(l, w, e);
  }

  lemma ClosingFlags(l: C.Layout, w: Watch, now: U64, unmarked: bool)
    requires FlagsFollow(w, unmarked)
    ensures FlagsFollow(Disconnect(l, w, now).watch, if Version(w) > 0 && w.open then false else unmarked)
  {
    if w.open {
      DownFlags(l, w, now);
    }
  }

  lemma {:induction false} RunFlags(l: C.Layout, w: Watch, events: seq<Event>, unmarked: bool)
    requires Inv(w) && Version(w) + |events| <= U32_MAX && FlagsFollow(w, unmarked)
    ensures FlagsFollow(Run(l, w, events).watch, UnmarkedAtEnd(l, w, events, unmarked))
    decreases |events|
  {
    hide Step, Inv, FlagsFollow, Unmarked;
    if events == [] {
    } else {
      StepInv(l, w, events[0]);
      StepVersion(l, w, events[0]);
      StepFlags(l, w, events[0], unmarked);
      RunFlags(l, Step(l, w, events[0]).watch, events[1..], Unmarked(w, events[0], unmarked));
    }
  }

  /**
   * In every run, whenever the connection is down, the cached domains are all marked stale unless
   * the music screen was tapped since it last went down with something captured; if it has not
   * gone down like that, since the start, where the mark is what it was.
   */
  lemma CachedFlagsIff(l: C.Layout, w: Watch, events: seq<Event>)
    requires Inv(w) && Version(w) + |events| <= U32_MAX
    ensures var end := Run(l, w, events).watch;
            !end.open ==> (FlagsStale(end) <==> !UnmarkedAtEnd(l, w, events, !FlagsStale(w)))
  {
    RunFlags(l, w, events, !FlagsStale(w));
  }

  /** From power-on, where the mark is that of the stored record, if there is one that loads. */
  lemma CachedFlagsFromPowerOn(l: C.Layout, stored: Option<C.Record>, events: seq<Event>)
    requires Version(Boot(l, stored)) + |events| <= U32_MAX
    ensures var marked := stored.Some? && C.Valid(l, stored.value) && AllMarked(stored.value.contents);
            var end := Run(l, Boot(l, stored), events).watch;
            !end.open ==> (FlagsStale(end) <==> !UnmarkedAtEnd(l, Boot(l, stored), events, !marked))
  {
    BootInv(l, stored);
    PowerOnFlags(l, stored);
    hide Boot, Run, Inv, UnmarkedAtEnd;
    CachedFlagsIff(l, Boot(l, stored), events);
  }

  /**
   * Power-on shows restored host data as stale and leaves the flags as they were saved: a record
   * saved while online has none marked.
   */
  lemma PowerOnFlags(l: C.Layout, stored: Option<C.Record>)
    ensures var w := Boot(l, stored);
            var loads := stored.Some? && C.Valid(l, stored.value);
            && (FlagsStale(w) <==> loads && AllMarked(stored.value.contents))
            && (w.state.stale <==> loads && C.HasHostData(stored.value.contents))
  {
    hide C.Sum, C.RestoredHost;
  }

  // ---------- the cached music flag ----------

  /** The record holds the music flag that is shown. */
  predicate Recorded(w: Watch) {
    w.cache.contents.playing == w.state.host.playing
  }

  /** At power-on it does, unless the stored record has a flag although its music was never captured. */
  lemma BootRecordedIff(l: C.Layout, stored: Option<C.Record>)
    ensures Recorded(Boot(l, stored)) <==>
            !(stored.Some? && C.Valid(l, stored.value) &&
              stored.value.contents.musicMeta.version == 0 && stored.value.contents.playing)
  {
    hide C.Sum;
  }

  /** The flag that is shown once a snapshot and the run after it are in place. */
  function SnapshotFlag(w: Watch, m: Message): bool
    requires InstallsSnapshot(m)
  {
    var (revision, host) := P.ParseSnapshot(m.payload).value;
    R.RunHost(revision, host, w.sync.buffer).playing
  }

  /** A pending action is rolled back by a lost connection or a timeout, which capture nothing. */
  predicate LosesAction(w: Watch, e: Event) {
    w.actions.pending && (GoesDown(w, e) || (e.Poll? && A.TimedOut(w.actions, e.now)))
  }

  /** The two ways in which the flag shown changes without being captured. */
  predicate Unrecorded(w: Watch, e: Event) {
    if InstallsWithGap(w, e) then
      (if e.sent || !w.actions.pending then SnapshotFlag(w, e.message) else w.actions.previousPlaying) !=
      w.state.host.playing
    else LosesAction(w, e) && w.actions.previousPlaying != w.state.host.playing
  }

  lemma DisconnectRecordedIff(l: C.Layout, w: Watch, now: U64)
    requires w.actions.pending ==> w.open
    ensures var after := Disconnect(l, w, now).watch;
            && after.cache.contents.playing == w.cache.contents.playing
            && after.state.host.playing == if w.actions.pending then w.actions.previousPlaying else w.state.host.playing
  {
    hide C.Sum;
  }

  /** A refused message leaves the flag, the action and the record alone; an accepted one leaves them in step. */
  predicate KeepsRecorded(w: Watch, h: HandledMessage) {
    && Recorded(h.watch)
    && (!h.accepted ==> h.watch.actions == w.actions && h.watch.state.host == w.state.host && h.watch.open)
  }

  lemma SyncRecorded(l: C.Layout, w: Watch, h: R.Handled, sent: bool, now: U64)
    requires w.open && Recorded(w) && (h.state == w.state || h.result == R.Changed)
    ensures KeepsRecorded(w, AfterSync(l, w, h, sent, now))
  {
    hide C.Sum;
  }

  lemma ReplyRecorded(l: C.Layout, w: Watch, m: Message, now: U64)
    requires w.open && Recorded(w)
    ensures KeepsRecorded(w, AfterReply(l, w, m, now))
  {
    hide A.HasStatus, C.Sum;
  }

  lemma HandleRecorded(l: C.Layout, w: Watch, m: Message, sent: bool, now: U64)
    requires w.open && Recorded(w) && !InstallsWithGap(w, Deliver(m, sent, now))
    ensures KeepsRecorded(w, HandleMessage(l, w, m, sent, now))
  {
    HandleChanges(w.sync, w.state, m);
    hide R.Handle, R.Install, P.ParseSnapshot, AfterSync, AfterReply;
    if m.kind != HostCommand && m.kind != CommandResult {
      SyncRecorded(l, w, R.Handle(w.sync, w.state, m), sent, now);
    }
    ReplyRecorded(l, w, m, now);
  }

  lemma DeliverRecordedIff(l: C.Layout, w: Watch, m: Message, sent: bool, now: U64)
    requires Inv(w) && w.open && Recorded(w) && !InstallsWithGap(w, Deliver(m, sent, now))
    ensures Recorded(DeliverStep(l, w, m, sent, now).watch) <==> !Unrecorded(w, Deliver(m, sent, now))
  {
    HandleRecorded(l, w, m, sent, now);
    RefusesIff(l, w, m, sent, now);
    hide HandleMessage, Disconnect, Refuses, InstallsWithGap, Inv;
    var h := HandleMessage(l, w, m, sent, now);
    if !h.accepted {
      DisconnectRecordedIff(l, h.watch, now);
    }
  }

  /** What a snapshot with a gap does. */
  lemma GapHandled(sync: R.Sync, state: State, m: Message)
    requires InstallsSnapshot(m) && R.Install(sync, P.ParseSnapshot(m.payload).value.0).syncing
    ensures var h := R.Handle(sync, state, m);
            var (revision, host) := P.ParseSnapshot(m.payload).value;
            h.result == R.NeedsSnapshot && h.state.host == R.RunHost(revision, host, sync.buffer)
  {
    hide P.ParseSnapshot, P.ParseMutation;
  }

  lemma GapRecordedIff(l: C.Layout, w: Watch, m: Message, sent: bool, now: U64)
    requires Inv(w) && Recorded(w) && InstallsWithGap(w, Deliver(m, sent, now))
    ensures Recorded(DeliverStep(l, w, m, sent, now).watch) <==> !Unrecorded(w, Deliver(m, sent, now))
  {
    GapHandled(w.sync, w.state, m);
    hide R.Handle, R.Install, R.RunHost, P.ParseSnapshot, Disconnect;
    var h := HandleMessage(l, w, m, sent, now);
    assert h.watch.cache == w.cache && h.watch.actions == w.actions && h.accepted == sent && h.watch.open;
    if !sent {
      DisconnectRecordedIff(l, h.watch, now);
    }
  }

  lemma ConnectRecorded(l: C.Layout, w: Watch, helloSent: bool, requestSent: bool, now: U64)
    requires !w.open && !w.actions.pending && Recorded(w)
    ensures var s := ConnectStep(l, w, helloSent, requestSent, now);
            Recorded(s.watch)
  {
    var request := Bootstrap(Up(w), helloSent, requestSent);
    assert Recorded(request.watch);
    if !request.accepted {
      DisconnectRecordedIff(l, request.watch, now);
    }
    hide Disconnect;
  }

  lemma LocalRecordedIff(l: C.Layout, w: Watch, e: Event)
    requires Inv(w) && Recorded(w) && (e.Tap? || e.Navigate? || e.NextItem? || e.PreviousItem? || e.Poll?)
    ensures Recorded(Step(l, w, e).watch) <==> !Unrecorded(w, e)
  {
    hide C.Sum;
  }

  lemma ClosingRecordedIff(l: C.Layout, w: Watch, e: Event)
    requires Inv(w) && Recorded(w) && (e.BadFrame? || e.PeerClosed?)
    ensures Recorded(Step(l, w, e).watch) <==> !Unrecorded(w, e)
  {
    DisconnectRecordedIff(l, w, e.now);
    hide Disconnect;
  }

  /** Exactly these put the record out of step with the flag shown. */
  lemma StepRecordedIff(l: C.Layout, w: Watch, e: Event)
    requires Inv(w) && Recorded(w)
    ensures Recorded(Step(l, w, e).watch) <==> !Unrecorded(w, e)
  {
    match e
    case Connect(helloSent, requestSent, now) =>
      if !w.open {
        ConnectRecorded(l, w, helloSent, requestSent, now);
      }
    case Deliver(m, sent, now) =>
      if w.open {
        if InstallsWithGap(w, e) {
          GapRecordedIff(l, w, m, sent, now);
        } else {
          DeliverRecordedIff(l, w, m, sent, now);
        }
      }
    case BadFrame(now) => ClosingRecordedIff(l, w, e);
    case PeerClosed(now) => ClosingRecordedIff(l, w, e);
    case _ => LocalRecordedIff(l, w, e);
  }

  predicate RecordedThroughout(l: C.Layout, w: Watch, events: seq<Event>)
    decreases |events|
  {
    Recorded(w) && (events == [] || RecordedThroughout(l, Step(l, w, events[0]).watch, events[1..]))
  }

  predicate NoneUnrecorded(l: C.Layout, w: Watch, events: seq<Event>)
    decreases |events|
  {
    events == [] ||
    (!Unrecorded(w, events[0]) && NoneUnrecorded(l, Step(l, w, events[0]).watch, events[1..]))
  }

  /**
   * In every run, the record holds the flag shown all along if and only if no timeout and no lost
   * connection rolls back a flag that differs, and no snapshot that leaves a gap brings one.
   */
  lemma {:induction false} RecordFollowsIff(l: C.Layout, w: Watch, events: seq<Event>)
    requires Inv(w) && Recorded(w)
    ensures RecordedThroughout(l, w, events) <==> NoneUnrecorded(l, w, events)
    decreases |events|
  {
    hide Step, Inv, Recorded, Unrecorded;
    if events == [] {
    } else {
      var next := Step(l, w, events[0]).watch;
      StepInv(l, w, events[0]);
      StepRecordedIff(l, w, events[0]);
      if Recorded(next) {
        RecordFollowsIff(l, next, events[1..]);
      }
    }
  }

  lemma DownReports(l: C.Layout, w: Watch, now: U64)
    requires w.open
    ensures RolledBack in Disconnect(l, w, now).out <==> w.actions.pending
  {
    var out := Disconnect(l, w, now).out;
    assert w.actions.pending ==> out[1] == RolledBack;
    hide Lost;
  }

  lemma RefusedKeepsAction(l: C.Layout, w: Watch, m: Message, sent: bool, now: U64)
    requires w.open
    ensures var h := HandleMessage(l, w, m, sent, now);
            h.watch.open && (!h.accepted ==> h.watch.actions == w.actions && RolledBack !in h.out)
  {
    hide R.Handle, C.CaptureSync, A.HandleResult, A.HasStatus;
  }

  lemma DeliverReports(l: C.Layout, w: Watch, m: Message, sent: bool, now: U64)
    requires w.open && Refuses(w, m, sent)
    ensures RolledBack in DeliverStep(l, w, m, sent, now).out <==> w.actions.pending
  {
    RefusedKeepsAction(l, w, m, sent, now);
    RefusesIff(l, w, m, sent, now);
    hide HandleMessage, Refuses, Disconnect;
    DownReports(l, HandleMessage(l, w, m, sent, now).watch, now);
  }

  lemma ConnectReports(l: C.Layout, w: Watch, helloSent: bool, requestSent: bool, now: U64)
    requires !w.open && !w.actions.pending
    ensures RolledBack !in ConnectStep(l, w, helloSent, requestSent, now).out
  {
    var request := Bootstrap(Up(w), helloSent, requestSent);
    assert RolledBack !in request.out && !request.watch.actions.pending && request.watch.open;
    DownReports(l, request.watch, now);
    hide Disconnect;
  }

  /** Losing the action is reported as a rollback, together with a lost connection or by a poll. */
  lemma LosesActionIff(l: C.Layout, w: Watch, e: Event)
    requires Inv(w)
    ensures var out := Step(l, w, e).out;
            LosesAction(w, e) <==> RolledBack in out && (e.Poll? || WentDown in out)
  {
    GoesDownIff(l, w, e);
    hide TapStep, Disconnect, DeliverStep, ConnectStep, Refuses;
    match e
    case Connect(helloSent, requestSent, now) =>
      if !w.open {
        ConnectReports(l, w, helloSent, requestSent, now);
      }
    case Deliver(m, sent, now) =>
      if GoesDown(w, e) {
        DeliverReports(l, w, m, sent, now);
      }
    case BadFrame(now) =>
      if w.open {
        DownReports(l, w, now);
      }
    case PeerClosed(now) =>
      if w.open {
        DownReports(l, w, now);
      }
    case _ =>
  }

  lemma {:induction false} QuietRunRecorded(l: C.Layout, w: Watch, events: seq<Event>)
    requires Inv(w) && Recorded(w) && NoGapInstalls(l, w, events) && !Ends(Run(l, w, events).out)
    ensures Recorded(Run(l, w, events).watch)
    decreases |events|
  {
    hide Step, Inv, InstallsWithGap, Recorded;
    if events == [] {
    } else {
      var s := Step(l, w, events[0]);
      var rest := Run(l, s.watch, events[1..]);
      assert forall x :: x in s.out || x in rest.out <==> x in s.out + rest.out;
      StepInv(l, w, events[0]);
      StepRecordedIff(l, w, events[0]);
      LosesActionIff(l, w, events[0]);
      QuietRunRecorded(l, s.watch, events[1..]);
    }
  }

  /**
   * After a tap and any run through which the action stays pending and the optimistic value stays
   * shown, a rollback by timeout or disconnection shows the value from before the tap while the
   * record keeps the optimistic one.
   */
  lemma RollbackLeavesOptimisticRecord(l: C.Layout, w: Watch, tappedAt: U64, events: seq<Event>, e: Event)
    requires Inv(w) && w.open && w.state.screen == Music && !w.actions.pending
    requires var tapped := Step(l, w, Tap(true, tappedAt)).watch;
             var waiting := Run(l, tapped, events);
             && !Ends(waiting.out) && NoGapInstalls(l, tapped, events) && !InstallsWithGap(waiting.watch, e)
             && waiting.watch.state.host.playing != w.state.host.playing
             && LosesAction(waiting.watch, e)
    ensures var after := Step(l, Run(l, Step(l, w, Tap(true, tappedAt)).watch, events).watch, e).watch;
            after.state.host.playing == w.state.host.playing && after.cache.contents.playing != w.state.host.playing
  {
    var tapped := Step(l, w, Tap(true, tappedAt)).watch;
    TapRecorded(l, w, tappedAt);
    StepInv(l, w, Tap(true, tappedAt));
    hide Step, Inv, InstallsWithGap, Run, Ends, LosesAction;
    PendingSurvives(l, tapped, events);
    RunInv(l, tapped, events);
    QuietRunRecorded(l, tapped, events);
    LosesActionIff(l, Run(l, tapped, events).watch, e);
    StepRecordedIff(l, Run(l, tapped, events).watch, e);
    TapThenRollback(l, w, tappedAt, events, e);
  }

  lemma TapRecorded(l: C.Layout, w: Watch, now: U64)
    requires w.open && w.state.screen == Music && !w.actions.pending
    ensures var tapped := Step(l, w, Tap(true, now)).watch;
            Recorded(tapped) && tapped.actions.pending && tapped.actions.previousPlaying == w.state.host.playing
  {}
}
