/** The closed loop with the bundled host, as runs of the watch. */
module ReconnectionRuns {
  import opened Integers
  import opened WatchModel
  import opened Wire
  import P = WatchParse
  import R = Replication
  import Laws = ReplicationLaws
  import C = WatchCache
  import opened HostServer
  import N = Reconnection
  import opened RuntimeModel
  import opened RuntimeInvariants

  /** The watch reads the message as this packet. */
  predicate Encodes(h: Laws.History, p: Packet, m: Message) {
    match p
    case Patch(mutation) => (m.kind == StatePatch || m.kind == StateSet) && P.ParseMutation(m) == Some(mutation)
    case Snapshot => m.kind == SyncResponse && P.ParseSnapshot(m.payload) == Some((0, h.base))
  }

  /** Everything the host sends in a reply goes out as a message that is read as it. */
  ghost predicate EncodesReply(h: Laws.History, encode: Packet -> Message)
    requires Serves(h)
  {
    forall p :: p in Reply(h) ==> Encodes(h, p, encode(p))
  }

  function Requests(out: seq<Output>): nat {
    if out == [] then 0 else (if out[0].SentSyncRequest? then 1 else 0) + Requests(out[1..])
  }

  lemma {:induction false} RequestsAppend(a: seq<Output>, b: seq<Output>)
    ensures Requests(a + b) == Requests(a) + Requests(b)
  {
    if a == [] {
      assert a + b == b;
    } else {
      assert (a + b)[1..] == a[1..] + b;
      RequestsAppend(a[1..], b);
    }
  }

  lemma FewRequests(x: Output, y: Output)
    ensures Requests([x]) == if x.SentSyncRequest? then 1 else 0
    ensures Requests([x, y]) == Requests([x]) + Requests([y])
  {
    assert [x, y][1..] == [y];
  }

  /** The watch has what the loop says, and no action under way. */
  predicate Mirrors(w: Watch, loop: N.Loop) {
    && !w.actions.pending && w.open == !loop.failed
    && w.state.host == loop.state.host && w.sync.revision == loop.sync.revision
    && (w.open ==> w.sync == loop.sync)
  }

  ghost predicate FromReply(h: Laws.History, queue: seq<Packet>)
    requires Serves(h)
  {
    forall i :: 0 <= i < |queue| ==> queue[i] in Reply(h)
  }

  lemma NextFromReply(h: Laws.History, loop: N.Loop)
    requires Serves(h) && FromReply(h, loop.queue)
    ensures FromReply(h, N.Next(h, loop).queue)
  {
    hide N.Receive, Reply;
  }

  /** Replication looks at the host data of a state, and at nothing else in it. */
  lemma SameHandling(h: Laws.History, sync: R.Sync, s: State, t: State, p: Packet, m: Message)
    requires s.host == t.host && Encodes(h, p, m)
    ensures var a, b := R.Handle(sync, s, m), N.Receive(h, sync, t, p);
            a.result == b.result && a.sync == b.sync && a.state.host == b.state.host
  {
    hide P.ParseMutation, P.ParseSnapshot, R.Install, P.Applied;
  }

  /** What a handled message does to the watch, seen from the loop. */
  lemma SyncMirrors(l: C.Layout, w: Watch, handled: R.Handled, now: U64)
    requires w.open && !w.actions.pending
    requires handled.result == R.Error ==> handled.sync == w.sync
    ensures var s := Settle(l, AfterSync(l, w, handled, true, now), now);
            && !s.watch.actions.pending && s.watch.open == (handled.result != R.Error)
            && s.watch.state.host == handled.state.host && s.watch.sync.revision == handled.sync.revision
            && (s.watch.open ==> s.watch.sync == handled.sync)
            && Requests(s.out) == if handled.result == R.NeedsSnapshot then 1 else 0
  {
    FewRequests(SentSyncRequest(w.nextId, handled.sync.revision, true), WentDown);
    FewRequests(WentDown, WentDown);
    assert [] + [WentDown] == [WentDown] && [WentDown] + [] == [WentDown];
    hide C.CaptureSync, C.MarkStale;
  }

  lemma DeliverMirrors(l: C.Layout, h: Laws.History, w: Watch, loop: N.Loop, m: Message, now: U64)
    requires Serves(h) && Inv(w) && Mirrors(w, loop) && !N.Quiet(loop) && Encodes(h, loop.queue[0], m)
    ensures var s, next := Step(l, w, Deliver(m, true, now)), N.Next(h, loop);
            Mirrors(s.watch, next) && next.requests == loop.requests + Requests(s.out)
  {
    var handled := R.Handle(w.sync, w.state, m);
    Laws.HandleKeepsInvariant(w.sync, w.state, m);
    SameHandling(h, w.sync, w.state, loop.state, loop.queue[0], m);
    hide R.Handle, N.Receive, Inv, Settle, AfterSync, Reply, P.ParseMutation, P.ParseSnapshot;
    SyncMirrors(l, w, handled, now);
  }

  /** The messages of the first so many packets that reach the watch. */
  function Deliveries(h: Laws.History, loop: N.Loop, steps: nat, encode: Packet -> Message, now: U64): seq<Event>
    requires Serves(h)
    decreases steps
  {
    if steps == 0 || N.Quiet(loop) then []
    else [Deliver(encode(loop.queue[0]), true, now)] + Deliveries(h, N.Next(h, loop), steps - 1, encode, now)
  }

  lemma {:induction false} PlayIsRun(
    l: C.Layout, h: Laws.History, w: Watch, loop: N.Loop, steps: nat, encode: Packet -> Message, now: U64)
    requires Serves(h) && EncodesReply(h, encode) && FromReply(h, loop.queue) && Inv(w) && Mirrors(w, loop)
    ensures var r, end := Run(l, w, Deliveries(h, loop, steps, encode, now)), N.Play(h, loop, steps);
            Mirrors(r.watch, end) && end.requests == loop.requests + Requests(r.out)
    decreases steps
  {
    hide Step, Inv, Mirrors, N.Next, Reply, Encodes;
    if steps == 0 {
    } else if N.Quiet(loop) {
      N.QuietStays(h, loop, steps);
    } else {
      var e := Deliver(encode(loop.queue[0]), true, now);
      var s, next := Step(l, w, e), N.Next(h, loop);
      assert loop.queue[0] in Reply(h);
      DeliverMirrors(l, h, w, loop, encode(loop.queue[0]), now);
      NextFromReply(h, loop);
      StepInv(l, w, e);
      PlayIsRun(l, h, s.watch, next, steps - 1, encode, now);
      var later := Deliveries(h, next, steps - 1, encode, now);
      RunFront(l, w, e, later);
      RequestsAppend(s.out, Run(l, s.watch, later).out);
    }
  }

  /** A connection comes up, and the two replies of the host arrive as far as the watch takes them. */
  function Connection(h: Laws.History, w: Watch, encode: Packet -> Message, now: U64): seq<Event>
    requires Serves(h)
  {
    [Connect(true, true, now)] +
    Deliveries(h, N.Start(h, w.sync.revision, Up(w).state), 2 * (|h.log| + 1), encode, now)
  }

  lemma UpMirrors(l: C.Layout, h: Laws.History, w: Watch, now: U64)
    requires Serves(h) && Inv(w) && !w.open
    ensures var s, start := Step(l, w, Connect(true, true, now)), N.Start(h, w.sync.revision, Up(w).state);
            Mirrors(s.watch, start) && start.requests == Requests(s.out) && FromReply(h, start.queue)
  {
    var id := WrapInc32(w.nextId);
    FewRequests(WentUp, SentHello(w.nextId, true));
    FewRequests(SentSyncRequest(id, 0, true), WentUp);
    RequestsAppend([WentUp, SentHello(w.nextId, true)], [SentSyncRequest(id, 0, true)]);
    hide Reply;
  }

  /** A whole connection of the watch is the closed loop of one session, with as many requests. */
  lemma ConnectionIsSession(l: C.Layout, h: Laws.History, w: Watch, encode: Packet -> Message, now: U64)
    requires Serves(h) && EncodesReply(h, encode) && Inv(w) && !w.open
    ensures var r, end := Run(l, w, Connection(h, w, encode, now)), N.Session(h, w.sync.revision, Up(w).state);
            Mirrors(r.watch, end) && Requests(r.out) == end.requests
  {
    var e, start := Connect(true, true, now), N.Start(h, w.sync.revision, Up(w).state);
    var steps := 2 * (|h.log| + 1);
    var s := Step(l, w, e);
    var later := Deliveries(h, start, steps, encode, now);
    UpMirrors(l, h, w, now);
    StepInv(l, w, e);
    hide Step, Inv, Mirrors, Deliveries, N.Start, N.Play, Run, EncodesReply, FromReply;
    PlayIsRun(l, h, s.watch, start, steps, encode, now);
    RunFront(l, w, e, later);
    RequestsAppend(s.out, Run(l, s.watch, later).out);
  }

  /** The watch is connected and has all that the host has logged. */
  predicate UpToDate(h: Laws.History, w: Watch)
    requires Serves(h)
  {
    w.open && w.sync == R.Sync(|h.log|, false, map[]) && w.state.host == Laws.Fold(h, |h.log|)
  }

  /**
   * A watch that connects to the bundled host, and receives in order what it sends, has all of
   * the log after that if and only if its revision was zero or the log has 2 to 16 entries.
   */
  lemma WatchReconnectsIff(l: C.Layout, h: Laws.History, w: Watch, encode: Packet -> Message, now: U64)
    requires Serves(h) && EncodesReply(h, encode) && Inv(w) && !w.open
    ensures UpToDate(h, Run(l, w, Connection(h, w, encode, now)).watch) <==>
            w.sync.revision == 0 || 2 <= |h.log| <= 16
  {
    var revision, state := w.sync.revision, Up(w).state;
    ConnectionIsSession(l, h, w, encode, now);
    N.ReconnectStabilizesIff(h, revision, state);
    hide Inv, Run, Connection, EncodesReply, Up, Laws.Fold, N.Session;
    if revision != 0 && |h.log| == 1 {
      N.SingleEntryLost(h, revision, state);
    } else if revision != 0 && |h.log| > R.BUFFER_CAPACITY {
      N.LongLogFails(h, revision, state, R.BUFFER_CAPACITY);
    }
  }
}
