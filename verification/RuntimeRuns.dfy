/** Whole runs of the watch: what the observed events add up to. */
module RuntimeRuns {
  import opened Integers
  import opened WatchModel
  import opened Wire
  import P = WatchParse
  import R = Replication
  import Laws = ReplicationLaws
  import A = WatchActions
  import C = WatchCache
  import opened RuntimeModel
  import opened RuntimeInvariants

  // ---------- conservation of actions ----------

  function Count(out: seq<Output>, x: Output): nat {
    if out == [] then 0 else (if out[0] == x then 1 else 0) + Count(out[1..], x)
  }

  function Weight(x: Output): int {
    if x == Begun then 1 else if x == Confirmed || x == RolledBack then -1 else 0
  }

  /** Actions begun less actions ended. */
  function Balance(out: seq<Output>): int {
    if out == [] then 0 else Weight(out[0]) + Balance(out[1..])
  }

  lemma {:induction false} BalanceCounts(out: seq<Output>)
    ensures Balance(out) == Count(out, Begun) - Count(out, Confirmed) - Count(out, RolledBack)
  {
    if out == [] {
    } else {
      BalanceCounts(out[1..]);
    }
  }

  lemma {:induction false} BalanceAppend(a: seq<Output>, b: seq<Output>)
    ensures Balance(a + b) == Balance(a) + Balance(b)
  {
    if a == [] {
      assert a + b == b;
    } else {
      assert (a + b)[1..] == a[1..] + b;
      BalanceAppend(a[1..], b);
    }
  }

  lemma BalanceShort(x: Output, y: Output, z: Output)
    ensures Balance([x]) == Weight(x)
    ensures Balance([x, y]) == Weight(x) + Weight(y)
    ensures Balance([x, y, z]) == Weight(x) + Weight(y) + Weight(z)
  {
    assert [x, y, z][1..] == [y, z] && [y, z][1..] == [z] && [x, y][1..] == [y];
    assert Balance([y, z]) == Weight(y) + Balance([z]);
  }

  function Pending(w: Watch): int {
    if w.actions.pending then 1 else 0
  }

  /** Disconnecting ends the pending action, if any. */
  lemma DisconnectBalance(l: C.Layout, w: Watch, now: U64)
    requires w.actions.pending ==> w.open
    ensures var s := Disconnect(l, w, now);
            Balance(s.out) == Pending(s.watch) - Pending(w)
  {
    BalanceShort(WentDown, RolledBack, RolledBack);
    assert [WentDown] + [RolledBack] == [WentDown, RolledBack];
    assert [WentDown] + [] == [WentDown];
  }

  lemma SettleBalance(l: C.Layout, h: HandledMessage, now: U64)
    requires h.watch.actions.pending ==> h.watch.open
    ensures var s := Settle(l, h, now);
            Balance(s.out) == Balance(h.out) + Pending(s.watch) - Pending(h.watch)
  {
    DisconnectBalance(l, h.watch, now);
    BalanceAppend(h.out, Disconnect(l, h.watch, now).out);
  }

  /** Handling a message makes at most one observation, never of the connection, and allots its ids. */
  predicate MessageShape(w: Watch, h: HandledMessage) {
    && h.watch.open == w.open
    && (h.out == [] ==> h.watch.actions == w.actions && h.watch.nextId == w.nextId)
    && (h.out != [] ==> |h.out| == 1 && OneObservation(w, h.watch, h.out[0]))
  }

  predicate OneObservation(w: Watch, after: Watch, x: Output) {
    match x
    case Confirmed => w.actions.pending && after.actions == w.actions.(pending := false) && after.nextId == w.nextId
    case RolledBack => w.actions.pending && after.actions == w.actions.(pending := false) && after.nextId == w.nextId
    case SentSyncRequest(id, _, _) => after.actions == w.actions && id == w.nextId && after.nextId == WrapInc32(id)
    case SentUnsupported(id, _, _) => after.actions == w.actions && id == w.nextId && after.nextId == WrapInc32(id)
    case _ => false
  }

  lemma AfterSyncShape(l: C.Layout, w: Watch, h: R.Handled, sent: bool, now: U64)
    ensures MessageShape(w, AfterSync(l, w, h, sent, now))
  {}

  lemma AfterReplyShape(l: C.Layout, w: Watch, m: Message, now: U64)
    ensures MessageShape(w, AfterReply(l, w, m, now))
  {}

  lemma HandleShape(l: C.Layout, w: Watch, m: Message, sent: bool, now: U64)
    ensures MessageShape(w, HandleMessage(l, w, m, sent, now))
  {
    AfterReplyShape(l, w, m, now);
    AfterSyncShape(l, w, R.Handle(w.sync, w.state, m), sent, now);
  }

  lemma ShapeBalance(w: Watch, h: HandledMessage)
    requires MessageShape(w, h)
    ensures Balance(h.out) == Pending(h.watch) - Pending(w)
  {
    if h.out != [] {
      BalanceShort(h.out[0], Begun, Begun);
      assert h.out == [h.out[0]];
    }
  }

  lemma DeliverBalance(l: C.Layout, w: Watch, m: Message, sent: bool, now: U64)
    requires w.open
    ensures var s := DeliverStep(l, w, m, sent, now);
            Balance(s.out) == Pending(s.watch) - Pending(w)
  {
    var h := HandleMessage(l, w, m, sent, now);
    HandleShape(l, w, m, sent, now);
    ShapeBalance(w, h);
    SettleBalance(l, h, now);
  }

  lemma BootstrapShape(w: Watch, helloSent: bool, requestSent: bool)
    requires w.open
    ensures MessageShape(w, Bootstrap(w, helloSent, requestSent))
  {}

  lemma ConnectBalance(l: C.Layout, w: Watch, helloSent: bool, requestSent: bool, now: U64)
    requires w.actions.pending ==> w.open
    ensures var s := ConnectStep(l, w, helloSent, requestSent, now);
            Balance(s.out) == Pending(s.watch) - Pending(w)
  {
    if !w.open {
      var request := Bootstrap(Up(w), helloSent, requestSent);
      BootstrapShape(Up(w), helloSent, requestSent);
      ShapeBalance(Up(w), request);
      SettleBalance(l, request, now);
      BalanceShort(WentUp, SentHello(w.nextId, helloSent), Begun);
      BalanceAppend([WentUp, SentHello(w.nextId, helloSent)], Settle(l, request, now).out);
    }
  }

  lemma TapBalance(l: C.Layout, w: Watch, sent: bool, now: U64)
    ensures var s := TapStep(l, w, sent, now);
            Balance(s.out) == Pending(s.watch) - Pending(w)
  {
    BalanceShort(Begun, SentAction(w.nextId, !w.state.host.playing, sent), RolledBack);
    BalanceShort(Begun, RolledBack, RolledBack);
    hide C.CaptureSync;
  }

  lemma StepBalance(l: C.Layout, w: Watch, e: Event)
    requires w.actions.pending ==> w.open
    ensures var s := Step(l, w, e);
            Balance(s.out) == Pending(s.watch) - Pending(w)
  {
    match e
    case Connect(helloSent, requestSent, now) => ConnectBalance(l, w, helloSent, requestSent, now);
    case Deliver(m, sent, now) =>
      if w.open {
        DeliverBalance(l, w, m, sent, now);
      }
    case BadFrame(now) => DisconnectBalance(l, w, now);
    case PeerClosed(now) => DisconnectBalance(l, w, now);
    case Tap(sent, now) => TapBalance(l, w, sent, now);
    case Poll(now) => BalanceShort(RolledBack, Begun, Begun);
    case _ =>
  }

  /** In every run, actions begun equal actions confirmed, plus rolled back, plus the pending one. */
  lemma ActionsConserved(l: C.Layout, w: Watch, events: seq<Event>)
    requires Inv(w)
    ensures var r := Run(l, w, events);
            Count(r.out, Begun) + Pending(w) == Count(r.out, Confirmed) + Count(r.out, RolledBack) + Pending(r.watch)
  {
    RunBalance(l, w, events);
    BalanceCounts(Run(l, w, events).out);
  }

  lemma {:induction false} RunBalance(l: C.Layout, w: Watch, events: seq<Event>)
    requires Inv(w)
    ensures Balance(Run(l, w, events).out) == Pending(Run(l, w, events).watch) - Pending(w)
    decreases |events|
  {
    if events == [] {
    } else {
      var first := Step(l, w, events[0]);
      StepInv(l, w, events[0]);
      StepBalance(l, w, events[0]);
      RunBalance(l, first.watch, events[1..]);
      BalanceAppend(first.out, Run(l, first.watch, events[1..]).out);
    }
  }

  // ---------- the order of what is observed ----------

  /** The parts of an output a reader picks out, in order. */
  function Pick<T>(out: seq<Output>, f: Output -> seq<T>): seq<T> {
    if out == [] then [] else f(out[0]) + Pick(out[1..], f)
  }

  lemma {:induction false} PickAppend<T>(a: seq<Output>, b: seq<Output>, f: Output -> seq<T>)
    ensures Pick(a + b, f) == Pick(a, f) + Pick(b, f)
  {
    if a == [] {
      assert a + b == b;
    } else {
      assert (a + b)[1..] == a[1..] + b;
      PickAppend(a[1..], b, f);
    }
  }

  lemma PickOne<T>(x: Output, f: Output -> seq<T>)
    ensures Pick([x], f) == f(x)
  {
    var none: seq<Output> := [];
    assert [x][1..] == none;
    assert f(x) + [] == f(x);
  }

  lemma PickShort<T>(x: Output, y: Output, z: Output, f: Output -> seq<T>)
    ensures Pick([x], f) == f(x)
    ensures Pick([x, y], f) == f(x) + f(y)
    ensures Pick([x, y, z], f) == f(x) + f(y) + f(z)
  {
    PickOne(x, f);
    PickOne(y, f);
    PickOne(z, f);
    assert [x, y] == [x] + [y] && [x, y, z] == [x, y] + [z];
    PickAppend([x], [y], f);
    PickAppend([x, y], [z], f);
  }

  // ---------- connection events ----------

  function LinkOf(x: Output): seq<bool> {
    if x == WentUp then [true] else if x == WentDown then [false] else []
  }

  /** Each event flips the state of the connection, from `open` at the start to `end` at the end. */
  predicate Alternates(links: seq<bool>, open: bool, end: bool) {
    if links == [] then open == end else links[0] != open && Alternates(links[1..], links[0], end)
  }

  lemma {:induction false} AlternatesAppend(a: seq<bool>, b: seq<bool>, open: bool, middle: bool, end: bool)
    requires Alternates(a, open, middle) && Alternates(b, middle, end)
    ensures Alternates(a + b, open, end)
  {
    if a == [] {
      assert a + b == b;
    } else {
      assert (a + b)[1..] == a[1..] + b;
      AlternatesAppend(a[1..], b, a[0], middle, end);
    }
  }

  lemma DisconnectAlternates(l: C.Layout, w: Watch, now: U64)
    ensures var s := Disconnect(l, w, now);
            Alternates(Pick(s.out, LinkOf), w.open, s.watch.open)
  {
    PickShort(WentDown, RolledBack, RolledBack, LinkOf);
    assert [WentDown] + [RolledBack] == [WentDown, RolledBack] && [WentDown] + [] == [WentDown];
    assert [false] + [] == [false];
  }

  lemma SettleAlternates(l: C.Layout, w: Watch, h: HandledMessage, now: U64)
    requires MessageShape(w, h)
    ensures var s := Settle(l, h, now);
            Alternates(Pick(s.out, LinkOf), w.open, s.watch.open)
  {
    if h.out != [] {
      PickOne(h.out[0], LinkOf);
      assert h.out == [h.out[0]];
    }
    var down := Disconnect(l, h.watch, now);
    DisconnectAlternates(l, h.watch, now);
    PickAppend(h.out, down.out, LinkOf);
    assert [] + Pick(down.out, LinkOf) == Pick(down.out, LinkOf);
  }

  lemma ConnectAlternates(l: C.Layout, w: Watch, helloSent: bool, requestSent: bool, now: U64)
    requires !w.open
    ensures var s := ConnectStep(l, w, helloSent, requestSent, now);
            Alternates(Pick(s.out, LinkOf), false, s.watch.open)
  {
    var request := Bootstrap(Up(w), helloSent, requestSent);
    var hello := [WentUp, SentHello(w.nextId, helloSent)];
    var settled := Settle(l, request, now);
    BootstrapShape(Up(w), helloSent, requestSent);
    SettleAlternates(l, Up(w), request, now);
    PickShort(WentUp, SentHello(w.nextId, helloSent), Begun, LinkOf);
    PickAppend(hello, settled.out, LinkOf);
    assert [true] + [] == [true];
    assert Alternates([true], false, true);
    AlternatesAppend([true], Pick(settled.out, LinkOf), false, true, settled.watch.open);
  }

  lemma TapQuiet(l: C.Layout, w: Watch, sent: bool, now: U64)
    ensures Pick(TapStep(l, w, sent, now).out, LinkOf) == []
  {
    PickShort(Begun, SentAction(w.nextId, !w.state.host.playing, sent), RolledBack, LinkOf);
    PickShort(Begun, RolledBack, RolledBack, LinkOf);
  }

  lemma StepAlternates(l: C.Layout, w: Watch, e: Event)
    ensures var s := Step(l, w, e);
            Alternates(Pick(s.out, LinkOf), w.open, s.watch.open)
  {
    match e
    case Connect(helloSent, requestSent, now) =>
      if !w.open {
        ConnectAlternates(l, w, helloSent, requestSent, now);
      }
    case Deliver(m, sent, now) =>
      if w.open {
        HandleShape(l, w, m, sent, now);
        SettleAlternates(l, w, HandleMessage(l, w, m, sent, now), now);
      }
    case BadFrame(now) => DisconnectAlternates(l, w, now);
    case PeerClosed(now) => DisconnectAlternates(l, w, now);
    case Tap(sent, now) => TapQuiet(l, w, sent, now);
    case Poll(now) => PickOne(RolledBack, LinkOf);
    case _ =>
  }

  /** The message is refused: it cannot be taken, or what has to be sent because of it does not go out. */
  predicate Refuses(w: Watch, m: Message, sent: bool) {
    match m.kind
    case HostCommand => !sent
    case CommandResult => false
    case _ =>
      var result := R.Handle(w.sync, w.state, m).result;
      result == R.Error || (result == R.NeedsSnapshot && !sent)
  }

  /** The event ends a connection, be it one that it opened itself. */
  predicate GoesDown(w: Watch, e: Event) {
    match e
    case Connect(helloSent, requestSent, _) => !w.open && !(helloSent && requestSent)
    case Deliver(m, sent, _) => w.open && Refuses(w, m, sent)
    case BadFrame(_) => w.open
    case PeerClosed(_) => w.open
    case _ => false
  }

  lemma RefusesIff(l: C.Layout, w: Watch, m: Message, sent: bool, now: U64)
    requires w.open
    ensures HandleMessage(l, w, m, sent, now).accepted <==> !Refuses(w, m, sent)
  {
    hide R.Handle, C.CaptureSync, A.HandleResult, A.HasStatus;
  }

  lemma SettleGoesDown(l: C.Layout, w: Watch, h: HandledMessage, now: U64)
    requires w.open && MessageShape(w, h)
    ensures var s := Settle(l, h, now);
            && (WentDown in s.out <==> !h.accepted)
            && (!s.watch.open <==> !h.accepted)
  {
    if !h.accepted {
      var down := Disconnect(l, h.watch, now);
      assert down.out[0] == WentDown;
      assert WentDown in h.out + down.out;
    }
  }

  lemma TapKeepsLink(l: C.Layout, w: Watch, sent: bool, now: U64)
    ensures WentDown !in TapStep(l, w, sent, now).out && TapStep(l, w, sent, now).watch.open == w.open
  {
    hide C.CaptureSync;
  }

  /** Exactly these events report a lost connection, and a connection that is open ends with no other. */
  lemma GoesDownIff(l: C.Layout, w: Watch, e: Event)
    ensures var s := Step(l, w, e);
            && (WentDown in s.out <==> GoesDown(w, e))
            && (GoesDown(w, e) ==> !s.watch.open)
            && (!GoesDown(w, e) ==> s.watch.open == (w.open || e.Connect?))
  {
    hide Settle, HandleMessage, Refuses, TapStep, C.MarkStale;
    match e
    case Connect(helloSent, requestSent, now) =>
      if !w.open {
        var request := Bootstrap(Up(w), helloSent, requestSent);
        BootstrapShape(Up(w), helloSent, requestSent);
        SettleGoesDown(l, Up(w), request, now);
      }
    case Deliver(m, sent, now) =>
      if w.open {
        HandleShape(l, w, m, sent, now);
        RefusesIff(l, w, m, sent, now);
        SettleGoesDown(l, w, HandleMessage(l, w, m, sent, now), now);
      }
    case BadFrame(now) =>
      if w.open {
        assert Disconnect(l, w, now).out[0] == WentDown;
      }
    case PeerClosed(now) =>
      if w.open {
        assert Disconnect(l, w, now).out[0] == WentDown;
      }
    case Tap(sent, now) => TapKeepsLink(l, w, sent, now);
    case _ =>
  }

  /** Connected and disconnected events strictly alternate, in every run. */
  lemma {:induction false} LinksAlternate(l: C.Layout, w: Watch, events: seq<Event>)
    ensures Alternates(Pick(Run(l, w, events).out, LinkOf), w.open, Run(l, w, events).watch.open)
    decreases |events|
  {
    if events == [] {
    } else {
      var first := Step(l, w, events[0]);
      var rest := Run(l, first.watch, events[1..]);
      StepAlternates(l, w, events[0]);
      LinksAlternate(l, first.watch, events[1..]);
      PickAppend(first.out, rest.out, LinkOf);
      AlternatesAppend(Pick(first.out, LinkOf), Pick(rest.out, LinkOf), w.open, first.watch.open, rest.watch.open);
    }
  }

  // ---------- message ids ----------

  function IdOf(x: Output): seq<U32> {
    match x
    case SentHello(id, _) => [id]
    case SentSyncRequest(id, _, _) => [id]
    case SentAction(id, _, _) => [id]
    case SentUnsupported(id, _, _) => [id]
    case _ => []
  }

  /** Consecutive ids from `first`, wrapping at 2^32, up to but not including `next`. */
  predicate Consecutive(ids: seq<U32>, first: U32, next: U32) {
    if ids == [] then first == next else ids[0] == first && Consecutive(ids[1..], WrapInc32(first), next)
  }

  lemma {:induction false} ConsecutiveAppend(a: seq<U32>, b: seq<U32>, first: U32, middle: U32, next: U32)
    requires Consecutive(a, first, middle) && Consecutive(b, middle, next)
    ensures Consecutive(a + b, first, next)
    decreases |a|
  {
    if a == [] {
      assert a + b == b;
    } else {
      assert (a + b)[1..] == a[1..] + b;
      ConsecutiveAppend(a[1..], b, WrapInc32(first), middle, next);
    }
  }

  lemma OneId(id: U32)
    ensures Consecutive([id], id, WrapInc32(id))
  {
    assert [id][1..] == [];
  }

  lemma DisconnectIds(l: C.Layout, w: Watch, now: U64)
    ensures Pick(Disconnect(l, w, now).out, IdOf) == [] && Disconnect(l, w, now).watch.nextId == w.nextId
  {
    PickShort(WentDown, RolledBack, RolledBack, IdOf);
    assert [WentDown] + [RolledBack] == [WentDown, RolledBack] && [WentDown] + [] == [WentDown];
  }

  lemma SettleIds(l: C.Layout, w: Watch, h: HandledMessage, now: U64)
    requires MessageShape(w, h)
    ensures var s := Settle(l, h, now);
            Consecutive(Pick(s.out, IdOf), w.nextId, s.watch.nextId)
  {
    if h.out != [] {
      PickOne(h.out[0], IdOf);
      assert h.out == [h.out[0]];
      OneId(w.nextId);
    }
    var down := Disconnect(l, h.watch, now);
    DisconnectIds(l, h.watch, now);
    PickAppend(h.out, down.out, IdOf);
    assert Pick(h.out, IdOf) + [] == Pick(h.out, IdOf);
  }

  lemma ConnectIds(l: C.Layout, w: Watch, helloSent: bool, requestSent: bool, now: U64)
    requires !w.open
    ensures var s := ConnectStep(l, w, helloSent, requestSent, now);
            Consecutive(Pick(s.out, IdOf), w.nextId, s.watch.nextId)
  {
    var request := Bootstrap(Up(w), helloSent, requestSent);
    var hello := [WentUp, SentHello(w.nextId, helloSent)];
    var settled := Settle(l, request, now);
    BootstrapShape(Up(w), helloSent, requestSent);
    SettleIds(l, Up(w), request, now);
    PickShort(WentUp, SentHello(w.nextId, helloSent), Begun, IdOf);
    PickAppend(hello, settled.out, IdOf);
    OneId(w.nextId);
    assert [] + [w.nextId] == [w.nextId];
    ConsecutiveAppend([w.nextId], Pick(settled.out, IdOf), w.nextId, Up(w).nextId, settled.watch.nextId);
  }

  lemma TapIds(l: C.Layout, w: Watch, sent: bool, now: U64)
    ensures var s := TapStep(l, w, sent, now);
            Consecutive(Pick(s.out, IdOf), w.nextId, s.watch.nextId)
  {
    PickShort(Begun, SentAction(w.nextId, !w.state.host.playing, sent), RolledBack, IdOf);
    PickShort(Begun, RolledBack, RolledBack, IdOf);
    OneId(w.nextId);
    assert [] + [w.nextId] + [] == [w.nextId] && [] + [w.nextId] == [w.nextId];
  }

  lemma StepIds(l: C.Layout, w: Watch, e: Event)
    ensures var s := Step(l, w, e);
            Consecutive(Pick(s.out, IdOf), w.nextId, s.watch.nextId)
  {
    match e
    case Connect(helloSent, requestSent, now) =>
      if !w.open {
        ConnectIds(l, w, helloSent, requestSent, now);
      }
    case Deliver(m, sent, now) =>
      if w.open {
        HandleShape(l, w, m, sent, now);
        SettleIds(l, w, HandleMessage(l, w, m, sent, now), now);
      }
    case BadFrame(now) => DisconnectIds(l, w, now);
    case PeerClosed(now) => DisconnectIds(l, w, now);
    case Tap(sent, now) => TapIds(l, w, sent, now);
    case Poll(now) => PickOne(RolledBack, IdOf);
    case _ =>
  }

  /** Across connections, sends and failed sends, message ids are handed out one after the other. */
  lemma {:induction false} IdsConsecutive(l: C.Layout, w: Watch, events: seq<Event>)
    ensures Consecutive(Pick(Run(l, w, events).out, IdOf), w.nextId, Run(l, w, events).watch.nextId)
    decreases |events|
  {
    if events == [] {
    } else {
      var first := Step(l, w, events[0]);
      var rest := Run(l, first.watch, events[1..]);
      StepIds(l, w, events[0]);
      IdsConsecutive(l, first.watch, events[1..]);
      PickAppend(first.out, rest.out, IdOf);
      ConsecutiveAppend(Pick(first.out, IdOf), Pick(rest.out, IdOf), w.nextId, first.watch.nextId, rest.watch.nextId);
    }
  }

  // ---------- revisions ----------

  /** A snapshot of an earlier revision; it is installed like any other. */
  predicate Lowers(w: Watch, e: Event) {
    e.Deliver? && w.open && InstallsSnapshot(e.message) &&
    P.ParseSnapshot(e.message.payload).value.0 < w.sync.revision
  }

  /** What is buffered lies ahead, so a run after an earlier revision cannot begin. */
  lemma HandleLowersIff(sync: R.Sync, state: State, m: Message)
    requires Laws.SyncOk(sync)
    ensures R.Handle(sync, state, m).sync.revision < sync.revision <==>
            InstallsSnapshot(m) && P.ParseSnapshot(m.payload).value.0 < sync.revision
  {
    hide P.ParseSnapshot, P.ParseMutation;
  }

  lemma RevisionAfterSync(l: C.Layout, w: Watch, h: R.Handled, sent: bool, now: U64)
    ensures AfterSync(l, w, h, sent, now).watch.sync.revision == h.sync.revision
  {}

  lemma RevisionAfterReply(l: C.Layout, w: Watch, m: Message, now: U64)
    ensures AfterReply(l, w, m, now).watch.sync == w.sync
  {}

  lemma SettleRevision(l: C.Layout, h: HandledMessage, now: U64)
    ensures Settle(l, h, now).watch.sync.revision == h.watch.sync.revision
  {}

  lemma DeliverLowersIff(l: C.Layout, w: Watch, m: Message, sent: bool, now: U64)
    requires Inv(w) && w.open
    ensures DeliverStep(l, w, m, sent, now).watch.sync.revision < w.sync.revision <==> Lowers(w, Deliver(m, sent, now))
  {
    HandleLowersIff(w.sync, w.state, m);
    RevisionAfterSync(l, w, R.Handle(w.sync, w.state, m), sent, now);
    RevisionAfterReply(l, w, m, now);
    SettleRevision(l, HandleMessage(l, w, m, sent, now), now);
    hide R.Handle, P.ParseSnapshot, AfterSync, AfterReply, Settle, Inv;
  }

  /** The revision goes back exactly when such a snapshot arrives. */
  lemma StepLowersIff(l: C.Layout, w: Watch, e: Event)
    requires Inv(w)
    ensures Step(l, w, e).watch.sync.revision < w.sync.revision <==> Lowers(w, e)
  {
    match e
    case Deliver(m, sent, now) =>
      if w.open {
        DeliverLowersIff(l, w, m, sent, now);
      }
    case _ =>
  }

  predicate NonDecreasing(l: C.Layout, w: Watch, events: seq<Event>)
    decreases |events|
  {
    events == [] ||
    var next := Step(l, w, events[0]).watch;
    w.sync.revision <= next.sync.revision && NonDecreasing(l, next, events[1..])
  }

  predicate NoneLowers(l: C.Layout, w: Watch, events: seq<Event>)
    decreases |events|
  {
    events == [] || (!Lowers(w, events[0]) && NoneLowers(l, Step(l, w, events[0]).watch, events[1..]))
  }

  /** In every run, the revision never goes back if and only if no snapshot of an earlier revision arrives. */
  lemma {:induction false} RevisionNonDecreasingIff(l: C.Layout, w: Watch, events: seq<Event>)
    requires Inv(w)
    ensures NonDecreasing(l, w, events) <==> NoneLowers(l, w, events)
    decreases |events|
  {
    hide Step, Inv, Lowers;
    if events == [] {
    } else {
      StepInv(l, w, events[0]);
      StepLowersIff(l, w, events[0]);
      RevisionNonDecreasingIff(l, Step(l, w, events[0]).watch, events[1..]);
    }
  }
}
