/** What every event keeps, in every interleaving: connection, staleness, action and cache invariants. */
module RuntimeInvariants {
  import opened Integers
  import opened WatchModel
  import opened Wire
  import P = WatchParse
  import R = Replication
  import Laws = ReplicationLaws
  import C = WatchCache
  import opened RuntimeModel

  /**
   * Offline is shown exactly while the socket is closed; an action is pending only while it is
   * open; the flag on the music screen is never set without a pending action; a closed
   * connection buffers nothing; data shown as online is not stale.
   */
  predicate Inv(w: Watch) {
    && (w.state.connection == Offline <==> !w.open)
    && (w.actions.pending ==> w.open)
    && (w.state.actionPending ==> w.actions.pending)
    && (w.state.connection == Online ==> !w.state.stale)
    && Laws.SyncOk(w.sync)
    && (!w.open ==> !w.sync.syncing)
    && HostOk(w.state.host)
    && (forall r :: r in w.sync.buffer ==> P.ChangeOk(w.sync.buffer[r]))
  }

  lemma BootInv(l: C.Layout, stored: Option<C.Record>)
    ensures Inv(Boot(l, stored)) && !Boot(l, stored).open
  {}

  lemma LostInv(l: C.Layout, w: Watch, now: U64)
    requires HostOk(w.state.host) && !w.open && (w.state.actionPending ==> w.actions.pending)
    ensures Inv(Lost(l, w, now))
  {}

  lemma DisconnectInv(l: C.Layout, w: Watch, now: U64)
    requires Inv(w)
    ensures Inv(Disconnect(l, w, now).watch) && !Disconnect(l, w, now).watch.open
  {
    if w.open {
      LostInv(l, w.(open := false), now);
    }
  }

  lemma {:induction false} RunHostOk(revision: U64, host: HostData, buffer: map<U64, P.Change>)
    requires HostOk(host) && forall r :: r in buffer ==> P.ChangeOk(buffer[r])
    ensures HostOk(R.RunHost(revision, host, buffer))
    decreases U64_MAX - revision
  {
    if revision < U64_MAX && revision + 1 in buffer {
      RunHostOk(revision + 1, P.Applied(host, buffer[revision + 1]), buffer);
    }
  }

  lemma SequenceInv(sync: R.Sync, state: State, m: P.Mutation)
    requires Laws.SyncOk(sync) && HostOk(state.host) && P.ChangeOk(m.change)
    requires forall r :: r in sync.buffer ==> P.ChangeOk(sync.buffer[r])
    ensures var h := R.HandleMutation(sync, state, m);
            HostOk(h.state.host) && (forall r :: r in h.sync.buffer ==> P.ChangeOk(h.sync.buffer[r]))
  {}

  /** What synchronization may do to a watch, as far as the invariant goes. */
  predicate KeepsShape(w: Watch, h: R.Handled) {
    && Laws.SyncOk(h.sync) && HostOk(h.state.host)
    && (forall r :: r in h.sync.buffer ==> P.ChangeOk(h.sync.buffer[r]))
    && (h.state.actionPending ==> w.state.actionPending)
    && (h.state.stale ==> w.state.stale)
    && h.state.connection == w.state.connection && h.state.screen == w.state.screen
  }

  lemma HandleInv(w: Watch, m: Message)
    requires Inv(w)
    ensures KeepsShape(w, R.Handle(w.sync, w.state, m))
  {
    Laws.HandleKeepsInvariant(w.sync, w.state, m);
    P.ParsedDataOk(m, w.state.host);
    if m.kind == SyncResponse {
      var snapshot := P.ParseSnapshot(m.payload);
      if snapshot.Some? {
        RunHostOk(snapshot.value.0, snapshot.value.1, w.sync.buffer);
      }
    } else if m.kind == StateSet || m.kind == StatePatch {
      if P.ParseMutation(m).Some? {
        SequenceInv(w.sync, w.state, P.ParseMutation(m).value);
      }
    }
  }

  lemma AfterSyncInv(l: C.Layout, w: Watch, h: R.Handled, sent: bool, now: U64)
    requires Inv(w) && w.open && KeepsShape(w, h)
    ensures Inv(AfterSync(l, w, h, sent, now).watch) && AfterSync(l, w, h, sent, now).watch.open
  {}

  lemma AfterReplyInv(l: C.Layout, w: Watch, m: Message, now: U64)
    requires Inv(w) && w.open
    ensures Inv(AfterReply(l, w, m, now).watch) && AfterReply(l, w, m, now).watch.open
  {}

  lemma DeliverInv(l: C.Layout, w: Watch, m: Message, sent: bool, now: U64)
    requires Inv(w)
    ensures Inv(DeliverStep(l, w, m, sent, now).watch)
  {
    if w.open {
      HandleInv(w, m);
      AfterSyncInv(l, w, R.Handle(w.sync, w.state, m), sent, now);
      AfterReplyInv(l, w, m, now);
      var h := HandleMessage(l, w, m, sent, now);
      DisconnectInv(l, h.watch, now);
    }
  }

  lemma ConnectInv(l: C.Layout, w: Watch, helloSent: bool, requestSent: bool, now: U64)
    requires Inv(w)
    ensures Inv(ConnectStep(l, w, helloSent, requestSent, now).watch)
  {
    if !w.open {
      assert Inv(Up(w));
      DisconnectInv(l, Bootstrap(Up(w), helloSent, requestSent).watch, now);
    }
  }

  lemma LocalInv(l: C.Layout, w: Watch, e: Event)
    requires Inv(w) && (e.Tap? || e.Navigate? || e.NextItem? || e.PreviousItem? || e.Poll?)
    ensures Inv(Step(l, w, e).watch)
  {
    CursorStaysStored(w.state);
    if e.Tap? {
      TapInv(l, w, e.sent, e.now);
    }
    hide TapStep, Laws.SyncOk, C.CaptureApplication;
  }

  lemma TapInv(l: C.Layout, w: Watch, sent: bool, now: U64)
    requires Inv(w)
    ensures Inv(TapStep(l, w, sent, now).watch)
  {
    hide Laws.SyncOk, C.CaptureSync;
  }

  /** Every event keeps the invariant. */
  lemma StepInv(l: C.Layout, w: Watch, e: Event)
    requires Inv(w)
    ensures Inv(Step(l, w, e).watch)
  {
    match e
    case Connect(helloSent, requestSent, now) => ConnectInv(l, w, helloSent, requestSent, now);
    case Deliver(m, sent, now) => DeliverInv(l, w, m, sent, now);
    case BadFrame(now) => DisconnectInv(l, w, now);
    case PeerClosed(now) => DisconnectInv(l, w, now);
    case _ => LocalInv(l, w, e);
  }

  /**
   * A message that synchronization cannot read, or has no room for, ends the connection and does
   * nothing else: it is as if the peer had closed.
   */
  lemma ErrorClosesOnly(l: C.Layout, w: Watch, m: Message, sent: bool, now: U64)
    requires Inv(w) && w.open && m.kind != CommandResult && m.kind != HostCommand
    requires R.Handle(w.sync, w.state, m).result == R.Error
    ensures Step(l, w, Deliver(m, sent, now)) == Step(l, w, PeerClosed(now))
    ensures !Step(l, w, Deliver(m, sent, now)).watch.open
  {
    Laws.HandleKeepsInvariant(w.sync, w.state, m);
    hide R.Handle, Lost;
    assert [] + Disconnect(l, w, now).out == Disconnect(l, w, now).out;
  }

  // ---------- snapshots and connections ----------

  predicate InstallsSnapshot(m: Message) {
    m.kind == SyncResponse && P.ParseSnapshot(m.payload).Some?
  }

  /** Whether a snapshot has been installed since the connection came up. */
  function InstalledAfter(w: Watch, installed: bool, e: Event): bool {
    if e.Connect? && !w.open then false else installed || (e.Deliver? && w.open && InstallsSnapshot(e.message))
  }

  /** An open connection without a snapshot is still syncing, and does not show itself online. */
  predicate Linked(w: Watch, installed: bool) {
    w.open && !installed ==> w.sync.syncing && w.state.connection == Connecting
  }

  lemma DeliverLinked(l: C.Layout, w: Watch, m: Message, sent: bool, now: U64, installed: bool)
    requires w.open && Linked(w, installed)
    ensures Linked(DeliverStep(l, w, m, sent, now).watch, installed || InstallsSnapshot(m))
  {
    hide P.ParseSnapshot, P.ParseMutation, P.Applied, R.Install;
    var h := R.Handle(w.sync, w.state, m);
    if !installed && !InstallsSnapshot(m) {
      assert h.sync.syncing && h.state.connection == Connecting && h.result != R.Changed;
      hide R.Handle;
    }
  }

  lemma ConnectLinked(l: C.Layout, w: Watch, helloSent: bool, requestSent: bool, now: U64)
    requires !w.open
    ensures Linked(ConnectStep(l, w, helloSent, requestSent, now).watch, false)
  {
    var request := Bootstrap(Up(w), helloSent, requestSent);
    assert request.watch.sync.syncing && request.watch.state.connection == Connecting;
  }

  lemma LocalLinked(l: C.Layout, w: Watch, e: Event, installed: bool)
    requires Linked(w, installed) && (e.Tap? || e.Navigate? || e.NextItem? || e.PreviousItem? || e.Poll?)
    ensures Linked(Step(l, w, e).watch, installed)
  {}

  lemma StepLinked(l: C.Layout, w: Watch, e: Event, installed: bool)
    requires Linked(w, installed)
    ensures Linked(Step(l, w, e).watch, InstalledAfter(w, installed, e))
  {
    match e
    case Connect(helloSent, requestSent, now) =>
      if !w.open {
        ConnectLinked(l, w, helloSent, requestSent, now);
      }
    case Deliver(m, sent, now) =>
      if w.open {
        DeliverLinked(l, w, m, sent, now, installed);
      }
    case BadFrame(now) =>
    case PeerClosed(now) =>
    case _ => LocalLinked(l, w, e, installed);
  }

  /** A run: the watch at its end, and everything observed on the way. */
  function Run(l: C.Layout, w: Watch, events: seq<Event>): Stepped
    decreases |events|
  {
    if events == [] then Stepped(w, [])
    else
      var first := Step(l, w, events[0]);
      var rest := Run(l, first.watch, events[1..]);
      Stepped(rest.watch, first.out + rest.out)
  }

  /** What a run adds up to after this much has been observed. */
  function Then(out: seq<Output>, s: Stepped): Stepped {
    Stepped(s.watch, out + s.out)
  }

  lemma ThenThen(a: seq<Output>, b: seq<Output>, s: Stepped)
    ensures Then(a, Then(b, s)) == Then(a + b, s)
  {
    assert a + (b + s.out) == (a + b) + s.out;
  }

  lemma RunFront(l: C.Layout, w: Watch, e: Event, later: seq<Event>)
    ensures Run(l, w, [e] + later) == Then(Step(l, w, e).out, Run(l, Step(l, w, e).watch, later))
  {
    assert ([e] + later)[1..] == later;
    hide Step;
  }

  /** The invariant holds after every run from power-on, whatever the storage held. */
  lemma {:induction false} RunInv(l: C.Layout, w: Watch, events: seq<Event>)
    requires Inv(w)
    ensures Inv(Run(l, w, events).watch)
    decreases |events|
  {
    if events == [] {
    } else {
      StepInv(l, w, events[0]);
      RunInv(l, Step(l, w, events[0]).watch, events[1..]);
    }
  }

  function InstalledAtEnd(l: C.Layout, w: Watch, events: seq<Event>, installed: bool): bool
    decreases |events|
  {
    if events == [] then installed
    else InstalledAtEnd(l, Step(l, w, events[0]).watch, events[1..], InstalledAfter(w, installed, events[0]))
  }

  /** Whatever the host sends, the watch shows itself online only with a snapshot of this connection, and not stale. */
  lemma OnlineOnlyAfterSnapshot(l: C.Layout, w: Watch, events: seq<Event>, installed: bool)
    requires Inv(w) && Linked(w, installed)
    ensures var end := Run(l, w, events).watch;
            end.state.connection == Online ==> end.open && InstalledAtEnd(l, w, events, installed) && !end.state.stale
  {
    RunInv(l, w, events);
    RunLinked(l, w, events, installed);
  }

  lemma {:induction false} RunLinked(l: C.Layout, w: Watch, events: seq<Event>, installed: bool)
    requires Linked(w, installed)
    ensures Linked(Run(l, w, events).watch, InstalledAtEnd(l, w, events, installed))
    decreases |events|
  {
    hide Step, Linked, InstalledAfter;
    if events == [] {
    } else {
      StepLinked(l, w, events[0], installed);
      RunLinked(l, Step(l, w, events[0]).watch, events[1..], InstalledAfter(w, installed, events[0]));
    }
  }
}
