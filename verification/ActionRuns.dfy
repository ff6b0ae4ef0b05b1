/** The optimistic action over whole runs: which reply ends it, and what a failure restores. */
module ActionRuns {
  import opened Integers
  import opened WatchModel
  import opened Wire
  import P = WatchParse
  import R = Replication
  import A = WatchActions
  import C = WatchCache
  import opened RuntimeModel
  import opened RuntimeInvariants
  import opened RuntimeRuns

  function ActionIdOf(x: Output): seq<U32> {
    match x
    case SentAction(id, _, _) => [id]
    case _ => []
  }

  /** The ids under which actions were sent, in order. */
  function ActionIds(out: seq<Output>): seq<U32> {
    Pick(out, ActionIdOf)
  }

  /** No action was sent and a pending one is untouched, or one was sent and a pending one carries its id. */
  predicate Bound(before: A.Actions, ids: seq<U32>, after: A.Actions) {
    after.pending ==> if ids == [] then before == after else ids[|ids| - 1] == after.messageId
  }

  lemma BoundAppend(a: A.Actions, ids: seq<U32>, b: A.Actions, more: seq<U32>, c: A.Actions)
    requires Bound(a, ids, b) && Bound(b, more, c)
    ensures Bound(a, ids + more, c)
  {
    assert more == [] ==> ids + more == ids;
  }

  lemma DisconnectActions(l: C.Layout, w: Watch, now: U64)
    requires w.actions.pending ==> w.open
    ensures ActionIds(Disconnect(l, w, now).out) == [] && !Disconnect(l, w, now).watch.actions.pending
  {
    PickShort(WentDown, RolledBack, RolledBack, ActionIdOf);
    assert [WentDown] + [RolledBack] == [WentDown, RolledBack] && [WentDown] + [] == [WentDown];
  }

  lemma SettleActions(l: C.Layout, w: Watch, h: HandledMessage, now: U64)
    requires MessageShape(w, h) && w.open
    ensures var s := Settle(l, h, now);
            ActionIds(s.out) == [] && Bound(w.actions, [], s.watch.actions)
  {
    if h.out != [] {
      PickOne(h.out[0], ActionIdOf);
      assert h.out == [h.out[0]];
    }
    DisconnectActions(l, h.watch, now);
    PickAppend(h.out, Disconnect(l, h.watch, now).out, ActionIdOf);
  }

  lemma TapActions(l: C.Layout, w: Watch, sent: bool, now: U64)
    ensures var s := TapStep(l, w, sent, now);
            && Bound(w.actions, ActionIds(s.out), s.watch.actions)
            && (ActionIds(s.out) == [] || (ActionIds(s.out) == [w.nextId] && s.watch.nextId == WrapInc32(w.nextId)))
  {
    PickShort(Begun, SentAction(w.nextId, !w.state.host.playing, sent), RolledBack, ActionIdOf);
    PickShort(Begun, RolledBack, RolledBack, ActionIdOf);
    assert [] + [w.nextId] + [] == [w.nextId] && [] + [w.nextId] == [w.nextId];
  }

  lemma StepActions(l: C.Layout, w: Watch, e: Event)
    requires w.actions.pending ==> w.open
    ensures var s := Step(l, w, e);
            && Bound(w.actions, ActionIds(s.out), s.watch.actions)
            && (ActionIds(s.out) == [] || (ActionIds(s.out) == [w.nextId] && s.watch.nextId == WrapInc32(w.nextId)))
  {
    match e
    case Connect(helloSent, requestSent, now) =>
      if !w.open {
        var request := Bootstrap(Up(w), helloSent, requestSent);
        var hello := [WentUp, SentHello(w.nextId, helloSent)];
        BootstrapShape(Up(w), helloSent, requestSent);
        SettleActions(l, Up(w), request, now);
        PickShort(WentUp, SentHello(w.nextId, helloSent), Begun, ActionIdOf);
        PickAppend(hello, Settle(l, request, now).out, ActionIdOf);
      }
    case Deliver(m, sent, now) =>
      if w.open {
        HandleShape(l, w, m, sent, now);
        SettleActions(l, w, HandleMessage(l, w, m, sent, now), now);
      }
    case BadFrame(now) => DisconnectActions(l, w, now);
    case PeerClosed(now) => DisconnectActions(l, w, now);
    case Tap(sent, now) => TapActions(l, w, sent, now);
    case Poll(now) => PickOne(RolledBack, ActionIdOf);
    case _ =>
  }

  /** A pending action carries the id of the last action sent. */
  lemma {:induction false} PendingCarriesLastId(l: C.Layout, w: Watch, events: seq<Event>)
    requires Inv(w)
    ensures Bound(w.actions, ActionIds(Run(l, w, events).out), Run(l, w, events).watch.actions)
    decreases |events|
  {
    if events == [] {
    } else {
      var first := Step(l, w, events[0]);
      var rest := Run(l, first.watch, events[1..]);
      StepInv(l, w, events[0]);
      StepActions(l, w, events[0]);
      PendingCarriesLastId(l, first.watch, events[1..]);
      PickAppend(first.out, rest.out, ActionIdOf);
      BoundAppend(w.actions, ActionIds(first.out), first.watch.actions, ActionIds(rest.out), rest.watch.actions);
    }
  }

  predicate IncreasingFrom(ids: seq<U32>, least: nat) {
    (forall i :: 0 <= i < |ids| ==> ids[i] >= least) && Increasing(ids)
  }

  lemma {:induction false} ConsecutiveCount(ids: seq<U32>, first: U32, next: U32)
    requires Consecutive(ids, first, next) && first + |ids| <= U32_MAX
    ensures next == first + |ids|
    decreases |ids|
  {
    if ids == [] {
    } else {
      ConsecutiveCount(ids[1..], WrapInc32(first), next);
    }
  }

  /** As long as the id counter has not wrapped, later actions have larger ids. */
  lemma {:induction false} ActionIdsIncrease(l: C.Layout, w: Watch, events: seq<Event>)
    requires Inv(w) && w.nextId + |Pick(Run(l, w, events).out, IdOf)| <= U32_MAX
    ensures IncreasingFrom(ActionIds(Run(l, w, events).out), w.nextId)
    decreases |events|
  {
    if events == [] {
    } else {
      var first := Step(l, w, events[0]);
      var rest := Run(l, first.watch, events[1..]);
      StepInv(l, w, events[0]);
      StepActions(l, w, events[0]);
      StepIds(l, w, events[0]);
      IdsSplit(first.out, rest.out, w.nextId, first.watch.nextId);
      ActionIdsIncrease(l, first.watch, events[1..]);
      IncreasingCons(ActionIds(first.out), ActionIds(rest.out), w.nextId, first.watch.nextId);
    }
  }

  /** How the ids of a run divide between its first event and the rest. */
  lemma IdsSplit(first: seq<Output>, rest: seq<Output>, next: U32, middle: U32)
    requires Consecutive(Pick(first, IdOf), next, middle) && next + |Pick(first + rest, IdOf)| <= U32_MAX
    requires ActionIds(first) == [] || (ActionIds(first) == [next] && middle == WrapInc32(next))
    ensures next <= middle && middle + |Pick(rest, IdOf)| <= U32_MAX
    ensures ActionIds(first + rest) == ActionIds(first) + ActionIds(rest)
    ensures ActionIds(first) == [] || (ActionIds(first) == [next] && next < middle)
  {
    PickAppend(first, rest, IdOf);
    PickAppend(first, rest, ActionIdOf);
    ConsecutiveCount(Pick(first, IdOf), next, middle);
    assert WrapInc32(next) != next;
  }

  lemma IncreasingCons(a: seq<U32>, b: seq<U32>, least: nat, next: nat)
    requires a == [] || (a == [least] && least < next)
    requires least <= next && IncreasingFrom(b, next)
    ensures IncreasingFrom(a + b, least)
  {
    assert forall i :: 0 <= i < |b| ==> (a + b)[|a| + i] == b[i];
  }

  /** A reply to another message has no effect; one to the pending action ends it. */
  lemma ReplyDecides(l: C.Layout, w: Watch, m: Message, sent: bool, now: U64)
    requires w.open && w.actions.pending && m.kind == CommandResult && m.replyTo.Some?
    ensures var s := Step(l, w, Deliver(m, sent, now));
            if m.replyTo.value == w.actions.messageId then !s.watch.actions.pending else s == Stepped(w, [])
  {}

  /**
   * Within the first 2^32 message ids, a late reply to an earlier action is ignored without any
   * effect, while the reply to the last one sent is taken as the answer.
   */
  lemma LateReplyIgnored(l: C.Layout, w: Watch, events: seq<Event>, m: Message, k: nat, sent: bool, now: U64)
    requires Inv(w) && !w.actions.pending
    requires w.nextId + |Pick(Run(l, w, events).out, IdOf)| <= U32_MAX
    requires var ids := ActionIds(Run(l, w, events).out);
             m.kind == CommandResult && k < |ids| && m.replyTo == Some(ids[k])
    requires Run(l, w, events).watch.actions.pending
    ensures var r, ids := Run(l, w, events), ActionIds(Run(l, w, events).out);
            && (k < |ids| - 1 ==> Step(l, r.watch, Deliver(m, sent, now)) == Stepped(r.watch, []))
            && (k == |ids| - 1 ==> !Step(l, r.watch, Deliver(m, sent, now)).watch.actions.pending)
  {
    PendingCarriesLastId(l, w, events);
    ActionIdsIncrease(l, w, events);
    RunInv(l, w, events);
    var r := Run(l, w, events).watch;
    ReplyDecides(l, r, m, sent, now);
    hide Step, Run, ActionIds, Pick;
  }

  // ---------- rollback ----------

  /**
   * A tap whose frame goes out shows the other value at once, as pending, asks the host for it,
   * and caches it.
   */
  lemma SentTapShows(l: C.Layout, w: Watch, now: U64)
    requires w.open && w.state.screen == Music && !w.actions.pending
    ensures var s := Step(l, w, Tap(true, now));
            var playing := !w.state.host.playing;
            && s.watch.state ==
               w.state.(host := w.state.host.(playing := playing), actionPending := true, feedback := "SYNCING ACTION")
            && s.watch.actions == A.Actions(true, w.state.host.playing, w.nextId, now)
            && s.watch.cache == C.CaptureSync(l, w.cache, s.watch.state, w.sync.revision, now)
            && s.watch.cache.contents.playing == playing
            && s.watch.sync == w.sync && s.watch.open && s.watch.nextId == WrapInc32(w.nextId)
            && s.out == [Begun, SentAction(w.nextId, playing, true)]
  {}

  /**
   * A tap that finds the connection closed, or whose frame does not go out, is over at once: the
   * flag is what it was, the record holds it, and the feedback says why.
   */
  lemma UnsentTapRestores(l: C.Layout, w: Watch, sent: bool, now: U64)
    requires w.state.screen == Music && !w.actions.pending && !(w.open && sent)
    ensures var s := Step(l, w, Tap(sent, now));
            && s.watch.state.host == w.state.host && !s.watch.actions.pending && !s.watch.state.actionPending
            && s.watch.cache.contents.playing == w.state.host.playing
            && s.watch.state.feedback == "HOST OFFLINE"
            && s.out == if w.open then [Begun, SentAction(w.nextId, !w.state.host.playing, false), RolledBack]
                        else [Begun, RolledBack]
  {}

  predicate Ends(out: seq<Output>) {
    Confirmed in out || RolledBack in out
  }

  /** While an action is pending, an event either leaves it untouched or ends it and says so. */
  predicate PendingOutcome(w: Watch, s: Stepped) {
    && (!Ends(s.out) ==> s.watch.actions == w.actions)
    && (Ends(s.out) ==> !s.watch.actions.pending)
    && (RolledBack in s.out ==> s.watch.state.host.playing == w.actions.previousPlaying)
  }

  lemma DisconnectOutcome(l: C.Layout, w: Watch, now: U64)
    requires w.actions.pending && w.open
    ensures PendingOutcome(w, Disconnect(l, w, now))
  {
    assert Disconnect(l, w, now).out == [WentDown, RolledBack];
  }

  lemma AfterReplyOutcome(l: C.Layout, w: Watch, m: Message, now: U64)
    requires w.actions.pending
    ensures PendingOutcome(w, Stepped(AfterReply(l, w, m, now).watch, AfterReply(l, w, m, now).out))
    ensures AfterReply(l, w, m, now).accepted
  {}

  lemma AfterSyncOutcome(l: C.Layout, w: Watch, h: R.Handled, sent: bool, now: U64)
    requires w.actions.pending && w.open
    ensures PendingOutcome(w, Settle(l, AfterSync(l, w, h, sent, now), now))
  {
    var r := AfterSync(l, w, h, sent, now);
    if !r.accepted {
      DisconnectOutcome(l, r.watch, now);
    }
  }

  lemma UnsupportedOutcome(l: C.Layout, w: Watch, m: Message, sent: bool, now: U64)
    requires w.actions.pending && w.open && m.kind == HostCommand
    ensures PendingOutcome(w, Settle(l, HandleMessage(l, w, m, sent, now), now))
  {
    var h := HandleMessage(l, w, m, sent, now);
    if !h.accepted {
      DisconnectOutcome(l, h.watch, now);
    }
  }

  lemma StepOutcome(l: C.Layout, w: Watch, e: Event)
    requires Inv(w) && w.actions.pending
    ensures PendingOutcome(w, Step(l, w, e))
  {
    match e
    case Deliver(m, sent, now) =>
      if m.kind == HostCommand {
        UnsupportedOutcome(l, w, m, sent, now);
      } else if m.kind == CommandResult {
        AfterReplyOutcome(l, w, m, now);
      } else {
        AfterSyncOutcome(l, w, R.Handle(w.sync, w.state, m), sent, now);
      }
    case BadFrame(now) => DisconnectOutcome(l, w, now);
    case PeerClosed(now) => DisconnectOutcome(l, w, now);
    case _ =>
  }

  /** A pending action survives, unchanged, every run that does not say it ended. */
  lemma {:induction false} PendingSurvives(l: C.Layout, w: Watch, events: seq<Event>)
    requires Inv(w) && w.actions.pending && !Ends(Run(l, w, events).out)
    ensures Run(l, w, events).watch.actions == w.actions
    decreases |events|
  {
    if events == [] {
    } else {
      var first := Step(l, w, events[0]);
      StepInv(l, w, events[0]);
      StepOutcome(l, w, events[0]);
      var rest := Run(l, first.watch, events[1..]);
      assert forall x :: x in first.out || x in rest.out <==> x in first.out + rest.out;
      PendingSurvives(l, first.watch, events[1..]);
    }
  }

  /**
   * A tap, then any run in which the action stays pending, then any event that rolls it back:
   * rejection, disconnect or timeout. The flag is back to what it was before the tap.
   */
  lemma TapThenRollback(l: C.Layout, w: Watch, tappedAt: U64, events: seq<Event>, e: Event)
    requires Inv(w) && w.open && w.state.screen == Music && !w.actions.pending
    requires var tapped := Step(l, w, Tap(true, tappedAt)).watch;
             !Ends(Run(l, tapped, events).out) && RolledBack in Step(l, Run(l, tapped, events).watch, e).out
    ensures var tapped := Step(l, w, Tap(true, tappedAt)).watch;
            var after := Step(l, Run(l, tapped, events).watch, e).watch;
            after.state.host.playing == w.state.host.playing && !after.actions.pending
  {
    var tapped := Step(l, w, Tap(true, tappedAt)).watch;
    StepInv(l, w, Tap(true, tappedAt));
    PendingSurvives(l, tapped, events);
    RunInv(l, tapped, events);
    StepOutcome(l, Run(l, tapped, events).watch, e);
  }

  lemma TapPends(l: C.Layout, w: Watch, now: U64)
    requires w.open && w.state.screen == Music && !w.actions.pending
    ensures Step(l, w, Tap(true, now)).watch.actions == A.Actions(true, w.state.host.playing, w.nextId, now)
  {}

  lemma PollEnds(l: C.Layout, w: Watch, now: U64)
    requires w.actions.pending && now - w.actions.startedAt >= A.ACTION_TIMEOUT_MS
    ensures var after := Step(l, w, Poll(now));
            after.out == [RolledBack] && !after.watch.actions.pending &&
            after.watch.state.host.playing == w.actions.previousPlaying &&
            after.watch.state.feedback == "ACTION TIMEOUT"
  {}

  /** A poll at least five seconds after the tap leaves nothing of that tap pending. */
  lemma TapThenPoll(l: C.Layout, w: Watch, tappedAt: U64, events: seq<Event>, now: U64)
    requires Inv(w) && w.open && w.state.screen == Music && !w.actions.pending
    requires now - tappedAt >= A.ACTION_TIMEOUT_MS
    requires !Ends(Run(l, Step(l, w, Tap(true, tappedAt)).watch, events).out)
    ensures var tapped := Step(l, w, Tap(true, tappedAt)).watch;
            var after := Step(l, Run(l, tapped, events).watch, Poll(now));
            after.out == [RolledBack] && !after.watch.actions.pending &&
            after.watch.state.host.playing == w.state.host.playing &&
            after.watch.state.feedback == "ACTION TIMEOUT"
  {
    var tapped := Step(l, w, Tap(true, tappedAt)).watch;
    TapPends(l, w, tappedAt);
    StepInv(l, w, Tap(true, tappedAt));
    hide Inv, Run, Ends, Step;
    PendingSurvives(l, tapped, events);
    PollEnds(l, Run(l, tapped, events).watch, now);
  }

  /** An authoritative patch in order shows its flag and leaves a pending action alone. */
  lemma PatchWhilePending(l: C.Layout, w: Watch, m: Message, flag: bool, sent: bool, now: U64)
    requires Inv(w) && w.actions.pending && !w.sync.syncing && (m.kind == StateSet || m.kind == StatePatch)
    requires w.sync.revision < U64_MAX
    requires P.ParseMutation(m) == Some(P.Mutation(w.sync.revision + 1, P.Playing(flag)))
    ensures var patched := Step(l, w, Deliver(m, sent, now)).watch;
            patched.state.host.playing == flag && patched.sync.revision == w.sync.revision + 1 &&
            patched.actions == w.actions
  {
    var h := R.Handle(w.sync, w.state, m);
    assert h == R.HandleMutation(w.sync, w.state, P.Mutation(w.sync.revision + 1, P.Playing(flag)));
    hide R.Handle, P.ParseMutation;
  }

  /**
   * A rollback overrides an authoritative patch that came in since the tap, however long ago: the
   * flag ends as the patch had it exactly when that was its value from before the tap.
   */
  lemma RollbackOverridesPatch(
    l: C.Layout, w: Watch, m: Message, flag: bool, sent: bool, now: U64, events: seq<Event>, e: Event)
    requires Inv(w) && w.actions.pending && !w.sync.syncing && (m.kind == StateSet || m.kind == StatePatch)
    requires w.sync.revision < U64_MAX
    requires P.ParseMutation(m) == Some(P.Mutation(w.sync.revision + 1, P.Playing(flag)))
    requires var waiting := Run(l, Step(l, w, Deliver(m, sent, now)).watch, events);
             !Ends(waiting.out) && RolledBack in Step(l, waiting.watch, e).out
    ensures var patched := Step(l, w, Deliver(m, sent, now)).watch;
            && patched.state.host.playing == flag && patched.sync.revision == w.sync.revision + 1
            && (Step(l, Run(l, patched, events).watch, e).watch.state.host.playing == flag <==>
                w.actions.previousPlaying == flag)
  {
    PatchWhilePending(l, w, m, flag, sent, now);
    StepInv(l, w, Deliver(m, sent, now));
    hide Step, Inv, Run, Ends, P.ParseMutation;
    var patched := Step(l, w, Deliver(m, sent, now)).watch;
    PendingSurvives(l, patched, events);
    RunInv(l, patched, events);
    StepOutcome(l, Run(l, patched, events).watch, e);
  }

  /**
   * The host's answer to an accepted action, its result and then the patch, ends the action,
   * makes the optimistic value authoritative and caches it.
   */
  lemma AcceptedActionRoundTrip(l: C.Layout, w: Watch, reply: Message, patch: Message, sent: bool, now: U64)
    requires Inv(w) && w.actions.pending && !w.sync.syncing && w.sync.revision < U64_MAX
    requires reply.kind == CommandResult && reply.replyTo == Some(w.actions.messageId)
    requires reply.raw == A.CompactResult("none", "ok")
    requires patch.kind == StatePatch
    requires P.ParseMutation(patch) == Some(P.Mutation(w.sync.revision + 1, P.Playing(w.state.host.playing)))
    ensures var replied := Step(l, w, Deliver(reply, sent, now));
            var after := Step(l, replied.watch, Deliver(patch, sent, now)).watch;
            && replied.out == [Confirmed] && !after.actions.pending && !after.state.actionPending
            && after.state.feedback == "HOST CONFIRMED"
            && after.state.host == w.state.host && after.sync.revision == w.sync.revision + 1
            && after.state.connection == Online && !after.state.stale
            && after.cache.contents.playing == w.state.host.playing
            && after.cache.contents.revision == after.sync.revision
  {
    assert '\"' !in "none" && '\"' !in "ok";
    A.SearchExactOnHostResults("none", "ok");
    var replied := Step(l, w, Deliver(reply, sent, now)).watch;
    var h := R.Handle(replied.sync, replied.state, patch);
    var mutation := P.Mutation(w.sync.revision + 1, P.Playing(w.state.host.playing));
    assert h == R.HandleMutation(replied.sync, replied.state, mutation);
  }
}
