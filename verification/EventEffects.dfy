/** What each event shows, sends and caches, whatever the state it meets. */
module EventEffects {
  import opened Integers
  import opened WatchModel
  import opened Wire
  import R = Replication
  import A = WatchActions
  import C = WatchCache
  import opened RuntimeModel
  import opened RuntimeInvariants

  // ---------- the connection ----------

  /** A connection comes up with a hello and a request for a snapshot from revision zero. */
  lemma ConnectionSends(l: C.Layout, w: Watch, now: U64)
    requires !w.open
    ensures var s := Step(l, w, Connect(true, true, now));
            && s.out == [WentUp, SentHello(w.nextId, true), SentSyncRequest(WrapInc32(w.nextId), 0, true)]
            && s.watch == w.(open := true, state := w.state.(connection := Connecting),
                             sync := w.sync.(syncing := true), nextId := WrapInc32(WrapInc32(w.nextId)))
  {}

  /** If either does not go out, the connection is down again. */
  lemma FailedConnectionSends(l: C.Layout, w: Watch, requestSent: bool, now: U64)
    requires !w.open && !w.actions.pending
    ensures Step(l, w, Connect(false, requestSent, now)).out == [WentUp, SentHello(w.nextId, false), WentDown]
    ensures Step(l, w, Connect(true, false, now)).out ==
            [WentUp, SentHello(w.nextId, true), SentSyncRequest(WrapInc32(w.nextId), 0, false), WentDown]
    ensures !Step(l, w, Connect(false, requestSent, now)).watch.open
    ensures !Step(l, w, Connect(true, false, now)).watch.open
  {}

  /**
   * A lost connection shows the watch offline, takes back an action under way, and marks what was
   * ever captured as stale; the other data stays, and nothing stays buffered.
   */
  lemma LossShows(l: C.Layout, w: Watch, now: U64)
    requires w.open
    ensures var s := Step(l, w, PeerClosed(now));
            && s == Step(l, w, BadFrame(now))
            && s.watch.state ==
               w.state.(connection := Offline,
                        host := if w.actions.pending
                                then w.state.host.(playing := w.actions.previousPlaying) else w.state.host,
                        actionPending := w.state.actionPending && !w.actions.pending,
                        feedback := if w.actions.pending then "HOST OFFLINE" else w.state.feedback,
                        stale := w.state.stale || w.cache.contents.weatherMeta.version > 0)
            && s.watch.sync == R.Sync(w.sync.revision, false, map[])
            && s.watch.cache == C.MarkStale(l, w.cache, now)
            && !s.watch.actions.pending && !s.watch.open && s.watch.nextId == w.nextId
            && s.out == if w.actions.pending then [WentDown, RolledBack] else [WentDown]
  {
    hide C.Sum;
  }

  // ---------- messages ----------

  /** A command of the host is answered as unsupported, to that command, and does nothing else. */
  lemma CommandAnswered(l: C.Layout, w: Watch, m: Message, now: U64)
    requires w.open && m.kind == HostCommand
    ensures Step(l, w, Deliver(m, true, now)) ==
            Stepped(w.(nextId := WrapInc32(w.nextId)), [SentUnsupported(w.nextId, m.id, true)])
    ensures SentUnsupported(w.nextId, m.id, false) in Step(l, w, Deliver(m, false, now)).out
    ensures !Step(l, w, Deliver(m, false, now)).watch.open
  {
    var h := HandleMessage(l, w, m, false, now);
    assert h.out == [SentUnsupported(w.nextId, m.id, false)];
    assert (h.out + Disconnect(l, h.watch, now).out)[0] == h.out[0];
    hide Lost;
  }

  /**
   * A reply to the action under way ends it: with the status ok the value shown stays, otherwise
   * the one from before the tap comes back. Any other reply does nothing.
   */
  lemma ReplyShows(l: C.Layout, w: Watch, m: Message, sent: bool, now: U64)
    requires w.open && m.kind == CommandResult
    ensures var s := Step(l, w, Deliver(m, sent, now));
            var ok := A.HasStatus(m.raw, "ok");
            if w.actions.pending && m.replyTo == Some(w.actions.messageId) then
              && s.watch.state ==
                 w.state.(host := if ok then w.state.host else w.state.host.(playing := w.actions.previousPlaying),
                          actionPending := false,
                          feedback := if ok then "HOST CONFIRMED" else "ACTION REJECTED")
              && !s.watch.actions.pending && s.watch.sync == w.sync && s.watch.open && s.watch.nextId == w.nextId
              && s.watch.cache == C.CaptureSync(l, w.cache, s.watch.state, w.sync.revision, now)
              && s.out == [if ok then Confirmed else RolledBack]
            else s == Stepped(w, [])
  {
    hide A.HasStatus, C.Sum;
  }

  /** What a message changes is shown as current, under the time it came, and cached with its revision. */
  lemma ChangeShows(l: C.Layout, w: Watch, m: Message, sent: bool, now: U64)
    requires w.open && m.kind != HostCommand && m.kind != CommandResult
    requires R.Handle(w.sync, w.state, m).result == R.Changed
    ensures var s, h := Step(l, w, Deliver(m, sent, now)), R.Handle(w.sync, w.state, m);
            && s.out == [] && s.watch.open && s.watch.nextId == w.nextId && s.watch.actions == w.actions
            && s.watch.sync == h.sync
            && s.watch.state == h.state.(connection := Online, stale := false, updatedAt := now)
            && s.watch.cache == C.CaptureSync(l, w.cache, s.watch.state, h.sync.revision, now)
  {
    hide R.Handle, C.Sum;
  }

  /** A gap makes the watch ask for a snapshot, from the revision it has. */
  lemma GapAsks(l: C.Layout, w: Watch, m: Message, now: U64)
    requires w.open && m.kind != HostCommand && m.kind != CommandResult
    requires R.Handle(w.sync, w.state, m).result == R.NeedsSnapshot
    ensures var h := R.Handle(w.sync, w.state, m);
            Step(l, w, Deliver(m, true, now)) ==
            Stepped(w.(sync := h.sync, state := h.state, nextId := WrapInc32(w.nextId)),
                    [SentSyncRequest(w.nextId, h.sync.revision, true)])
  {
    hide R.Handle;
  }

  /** What is ignored or buffered shows and sends nothing. */
  lemma QuietMessage(l: C.Layout, w: Watch, m: Message, sent: bool, now: U64)
    requires w.open && m.kind != HostCommand && m.kind != CommandResult
    requires R.Handle(w.sync, w.state, m).result == R.Unchanged || R.Handle(w.sync, w.state, m).result == R.Buffered
    ensures Step(l, w, Deliver(m, sent, now)) == Stepped(w.(sync := R.Handle(w.sync, w.state, m).sync), [])
  {
    HandledQuietly(w.sync, w.state, m);
    hide R.Handle;
  }

  lemma HandledQuietly(sync: R.Sync, state: State, m: Message)
    requires R.Handle(sync, state, m).result == R.Unchanged || R.Handle(sync, state, m).result == R.Buffered
    ensures R.Handle(sync, state, m).state == state
  {}

  // ---------- the user ----------

  /** Navigating shows the screen, and remembers it with the cursor. */
  lemma NavigateShows(l: C.Layout, w: Watch, screen: Screen, now: U64)
    ensures var s := Step(l, w, Navigate(screen, now));
            && s.out == [] && s.watch == w.(state := w.state.(screen := screen), cache := s.watch.cache)
            && s.watch.cache.contents.screen == C.ScreenNumber(screen)
            && s.watch.cache.contents.notifications ==
               w.cache.contents.notifications.(active := w.state.host.notifications.active)
            && s.watch.cache.contents.applicationMeta.updatedAt == now
  {
    hide C.Sum;
  }

  /** On the list, the next item is the one after the cursor if there is one; elsewhere nothing happens. */
  lemma NextItemShows(l: C.Layout, w: Watch, now: U64)
    ensures var s := Step(l, w, NextItem(now));
            var list := w.state.host.notifications;
            && s.out == []
            && if w.state.screen == Notifications && list.active + 1 < list.stored then
                 && s.watch.state.host == w.state.host.(notifications := list.(active := list.active + 1))
                 && s.watch == w.(state := w.state.(host := s.watch.state.host), cache := s.watch.cache)
                 && s.watch.cache.contents.notifications.active == list.active + 1
               else s.watch == w
  {
    hide C.Sum;
  }

  lemma PreviousItemShows(l: C.Layout, w: Watch, now: U64)
    ensures var s := Step(l, w, PreviousItem(now));
            var list := w.state.host.notifications;
            && s.out == []
            && if w.state.screen == Notifications && list.active > 0 then
                 && s.watch.state.host == w.state.host.(notifications := list.(active := list.active - 1))
                 && s.watch == w.(state := w.state.(host := s.watch.state.host), cache := s.watch.cache)
                 && s.watch.cache.contents.notifications.active == list.active - 1
               else s.watch == w
  {
    hide C.Sum;
  }

  /** A tap elsewhere than on the music screen, or while an action is under way, does nothing. */
  lemma OtherTap(l: C.Layout, w: Watch, sent: bool, now: U64)
    requires w.state.screen != Music || w.actions.pending
    ensures Step(l, w, Tap(sent, now)) == Stepped(w, [])
  {}

  /** A poll before the time is up does nothing; after it, it takes the action back. */
  lemma PollShows(l: C.Layout, w: Watch, now: U64)
    requires now >= w.actions.startedAt
    ensures var s := Step(l, w, Poll(now));
            if w.actions.pending && now - w.actions.startedAt >= 5000 then
              && s.watch == w.(actions := w.actions.(pending := false), state := s.watch.state)
              && s.watch.state ==
                 w.state.(host := w.state.host.(playing := w.actions.previousPlaying), actionPending := false,
                          feedback := "ACTION TIMEOUT")
              && s.out == [RolledBack]
            else s == Stepped(w, [])
  {}

  // ---------- power-on ----------

  /** Nothing of replication or of an action survives being switched off; without a record, nothing at all. */
  lemma PowerOnShows(l: C.Layout, stored: Option<C.Record>)
    ensures var w := Boot(l, stored);
            && w.sync == R.Sync(0, false, map[]) && !w.actions.pending && !w.open && w.nextId == 1
            && w.state.connection == Offline && !w.state.actionPending && w.state.feedback == ""
            && w.state.battery == 72
    ensures stored.None? || !C.Valid(l, stored.value) ==>
              var s := Boot(l, stored).state;
              && s.screen == Home && !s.stale && s.updatedAt == 0
              && (s.host.steps, s.host.temperature, s.host.condition) == (7421, 28, "Clear")
              && (s.host.title, s.host.playing) == ("Nothing playing", false)
              && s.host.notifications.total == s.host.notifications.stored == s.host.notifications.active == 0
  {
    hide C.Sum, C.RestoredHost;
  }
}
