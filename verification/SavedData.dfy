/** What the watch brings back when it is switched off at any moment of a run and on again. */
module SavedData {
  import opened Integers
  import opened WatchModel
  import opened Wire
  import R = Replication
  import A = WatchActions
  import C = WatchCache
  import opened RuntimeModel
  import opened RuntimeInvariants
  import opened CacheRuns
  import opened CachedFlags

  /** The host data and the screen that were last captured, or those of the initial state. */
  datatype Saved = Saved(host: HostData, screen: Screen)

  const NOTHING_SAVED := Saved(INITIAL.host, INITIAL.screen)

  /** The reply ends the pending action. */
  predicate ReplyTaken(w: Watch, e: Event) {
    e.Deliver? && w.open && e.message.kind == CommandResult && A.Answered(w.actions, e.message)
  }

  /** A message is applied, a reply ends the action, or a tap begins one: all the data shown is captured. */
  predicate CapturesAll(w: Watch, e: Event) {
    Applies(w, e) || ReplyTaken(w, e) || TapTaken(w, e)
  }

  /** Whatever is captured is captured as it is shown after the event. */
  function SavedAfter(w: Watch, e: Event, after: State, saved: Saved): Saved {
    if CapturesAll(w, e) then saved.(host := after.host)
    else
      var cursor := CapturedCursor(w, e);
      if cursor.None? then saved
      else
        Saved(if Version(w) == 0 then saved.host
              else saved.host.(notifications := saved.host.notifications.(active := cursor.value)),
              after.screen)
  }

  function SavedAtEnd(l: C.Layout, w: Watch, events: seq<Event>, saved: Saved): Saved
    decreases |events|
  {
    if events == [] then saved
    else
      var next := Step(l, w, events[0]).watch;
      SavedAtEnd(l, next, events[1..], SavedAfter(w, events[0], next.state, saved))
  }

  /** What restoring a record over the initial state would show. */
  function Kept(c: C.Contents): Saved
    requires c.screen < C.SCREEN_COUNT
  {
    Saved(C.RestoredHost(c, INITIAL.host),
          if c.applicationMeta.version > 0 then C.ScreenOf(c.screen) else INITIAL.screen)
  }

  predicate Keeps(w: Watch, saved: Saved) {
    var c := w.cache.contents;
    C.SameVersions(c) && c.screen < C.SCREEN_COUNT && Kept(c) == saved
  }

  function ScreenVersion(w: Watch): U32 {
    w.cache.contents.applicationMeta.version
  }

  lemma CapturedKeeps(l: C.Layout, w: Watch, now: U64, saved: Saved)
    requires Keeps(w, saved) && Version(w) < U32_MAX && HostOk(w.state.host)
    ensures Keeps(Captured(l, w, now), saved.(host := w.state.host))
    ensures ScreenVersion(Captured(l, w, now)) == ScreenVersion(w)
  {
    assert Truncate(w.state.host.condition, CONDITION_CAPACITY) == w.state.host.condition;
    assert Truncate(w.state.host.title, MUSIC_TITLE_CAPACITY) == w.state.host.title;
    hide C.Sum;
  }

  /** The capture of the screen and the cursor alone. */
  lemma ApplicationKeeps(l: C.Layout, w: Watch, s: State, now: U64, saved: Saved)
    requires Keeps(w, saved) && ScreenVersion(w) < U32_MAX
    ensures var after := w.(state := s, cache := C.CaptureApplication(l, w.cache, s, now));
            && ScreenVersion(after) == ScreenVersion(w) + 1
            && Keeps(after, Saved(if Version(w) == 0 then saved.host
                                  else saved.host.(notifications :=
                                         saved.host.notifications.(active := s.host.notifications.active)),
                                  s.screen))
  {
    hide C.Sum;
  }

  lemma DownKeeps(l: C.Layout, w: Watch, now: U64, saved: Saved)
    requires Keeps(w, saved)
    ensures Keeps(Disconnect(l, w, now).watch, saved)
    ensures ScreenVersion(Disconnect(l, w, now).watch) == ScreenVersion(w)
  {
    hide C.Sum;
  }

  /** What an event leaves in the record, and that it captures the screen at most once. */
  predicate StepKeeps(w: Watch, after: Watch, saved: Saved) {
    Keeps(after, saved) && ScreenVersion(w) <= ScreenVersion(after) <= ScreenVersion(w) + 1
  }

  lemma SyncKeeps(l: C.Layout, w: Watch, h: R.Handled, sent: bool, now: U64, saved: Saved)
    requires Keeps(w, saved) && Version(w) < U32_MAX && HostOk(h.state.host)
    ensures var r := AfterSync(l, w, h, sent, now);
            && StepKeeps(w, r.watch, if h.result == R.Changed then saved.(host := h.state.host) else saved)
            && (h.result == R.Changed ==> r.accepted && r.watch.state.host == h.state.host)
  {
    if h.result == R.Changed {
      var state := h.state.(connection := Online, stale := false, updatedAt := now);
      CapturedKeeps(l, w.(sync := h.sync, state := state), now, saved);
    }
    hide C.CaptureSync, Kept;
  }

  lemma ReplyKeeps(l: C.Layout, w: Watch, m: Message, now: U64, saved: Saved)
    requires Keeps(w, saved) && Version(w) < U32_MAX && HostOk(w.state.host)
    ensures var r := AfterReply(l, w, m, now);
            && StepKeeps(w, r.watch, if A.Answered(w.actions, m) then saved.(host := r.watch.state.host) else saved)
            && r.accepted
  {
    if A.Answered(w.actions, m) {
      var (actions, state) := A.HandleResult(w.actions, w.state, m);
      CapturedKeeps(l, w.(actions := actions, state := state), now, saved);
    }
    hide C.CaptureSync, Kept, A.HasStatus;
  }

  lemma HandleKeeps(l: C.Layout, w: Watch, m: Message, sent: bool, now: U64, saved: Saved)
    requires Inv(w) && w.open && Keeps(w, saved) && Version(w) < U32_MAX
    ensures var e, h := Deliver(m, sent, now), HandleMessage(l, w, m, sent, now);
            && StepKeeps(w, h.watch, if CapturesAll(w, e) then saved.(host := h.watch.state.host) else saved)
            && (!h.accepted ==> !CapturesAll(w, e))
  {
    HandleInv(w, m);
    SyncKeeps(l, w, R.Handle(w.sync, w.state, m), sent, now, saved);
    ReplyKeeps(l, w, m, now, saved);
    hide R.Handle, AfterSync, AfterReply, Kept, Inv;
  }

  lemma DeliverKeeps(l: C.Layout, w: Watch, m: Message, sent: bool, now: U64, saved: Saved)
    requires Inv(w) && w.open && Keeps(w, saved) && Version(w) < U32_MAX
    ensures var e := Deliver(m, sent, now);
            var after := Step(l, w, e).watch;
            StepKeeps(w, after, SavedAfter(w, e, after.state, saved))
  {
    var h := HandleMessage(l, w, m, sent, now);
    HandleKeeps(l, w, m, sent, now, saved);
    hide HandleMessage, Disconnect, Keeps, CapturesAll, Inv;
    if !h.accepted {
      DownKeeps(l, h.watch, now, saved);
    }
  }

  lemma TapKeeps(l: C.Layout, w: Watch, sent: bool, now: U64, saved: Saved)
    requires Inv(w) && Keeps(w, saved) && Version(w) < U32_MAX
    ensures var e := Tap(sent, now);
            var after := Step(l, w, e).watch;
            StepKeeps(w, after, SavedAfter(w, e, after.state, saved))
  {
    forall v: Watch | v.cache == w.cache && HostOk(v.state.host)
      ensures StepKeeps(w, Captured(l, v, now), saved.(host := v.state.host))
      ensures Captured(l, v, now).state == v.state
    {
      CapturedKeeps(l, v, now, saved);
    }
    NothingKeeps(w, saved);
    hide Captured, StepKeeps, Keeps, Inv;
  }

  lemma NothingKeeps(w: Watch, saved: Saved)
    requires Keeps(w, saved)
    ensures StepKeeps(w, w, saved)
  {}

  /** The state an event of the user that moves something ends in. */
  function Moved(s: State, e: Event): State {
    match e
    case Navigate(screen, _) => s.(screen := screen)
    case NextItem(_) => if NextNotification(s).Some? then NextNotification(s).value else s
    case PreviousItem(_) => if PreviousNotification(s).Some? then PreviousNotification(s).value else s
    case _ => s
  }

  lemma MoveStep(l: C.Layout, w: Watch, e: Event)
    requires e.Navigate? || e.NextItem? || e.PreviousItem?
    ensures var after, cursor := Step(l, w, e).watch, CapturedCursor(w, e);
            if cursor.None? then after == w
            else
              after == w.(state := Moved(w.state, e),
                          cache := C.CaptureApplication(l, w.cache, Moved(w.state, e), e.now)) &&
              cursor.value == after.state.host.notifications.active
  {
    hide C.CaptureApplication;
  }

  lemma MoveKeeps(l: C.Layout, w: Watch, e: Event, saved: Saved)
    requires Keeps(w, saved) && ScreenVersion(w) < U32_MAX
    requires e.Navigate? || e.NextItem? || e.PreviousItem?
    ensures var after := Step(l, w, e).watch;
            StepKeeps(w, after, SavedAfter(w, e, after.state, saved))
  {
    MoveStep(l, w, e);
    ApplicationKeeps(l, w, Moved(w.state, e), e.now, saved);
    hide Step, C.CaptureApplication, Keeps, CapturedCursor, Moved;
  }

  lemma PollKeeps(l: C.Layout, w: Watch, now: U64, saved: Saved)
    requires Keeps(w, saved)
    ensures StepKeeps(w, Step(l, w, Poll(now)).watch, saved)
  {
    hide Kept, A.TimedOut;
  }

  lemma StepKeepsSaved(l: C.Layout, w: Watch, e: Event, saved: Saved)
    requires Inv(w) && Keeps(w, saved) && Version(w) < U32_MAX && ScreenVersion(w) < U32_MAX
    ensures var after := Step(l, w, e).watch;
            StepKeeps(w, after, SavedAfter(w, e, after.state, saved))
  {
    hide Keeps, TapStep, Disconnect, DeliverStep;
    NothingKeeps(w, saved);
    match e
    case Connect(helloSent, requestSent, now) =>
      if !w.open {
        ConnectKeeps(l, w, helloSent, requestSent, now, saved);
      }
    case Deliver(m, sent, now) =>
      if w.open {
        DeliverKeeps(l, w, m, sent, now, saved);
      } else {
        ClosedDelivery(l, w, m, sent, now);
      }
    case BadFrame(now) => DownKeeps(l, w, now, saved);
    case PeerClosed(now) => DownKeeps(l, w, now, saved);
    case Tap(sent, now) => TapKeeps(l, w, sent, now, saved);
    case Poll(now) => PollKeeps(l, w, now, saved);
    case _ => MoveKeeps(l, w, e, saved);
  }

  lemma ConnectKeeps(l: C.Layout, w: Watch, helloSent: bool, requestSent: bool, now: U64, saved: Saved)
    requires !w.open && Keeps(w, saved)
    ensures StepKeeps(w, Step(l, w, Connect(helloSent, requestSent, now)).watch, saved)
  {
    var request := Bootstrap(Up(w), helloSent, requestSent);
    assert Keeps(request.watch, saved);
    DownKeeps(l, request.watch, now, saved);
    hide Disconnect;
  }

  lemma ClosedDelivery(l: C.Layout, w: Watch, m: Message, sent: bool, now: U64)
    requires !w.open
    ensures DeliverStep(l, w, m, sent, now).watch == w
  {}

  lemma {:induction false} RunKeeps(l: C.Layout, w: Watch, events: seq<Event>, saved: Saved)
    requires Inv(w) && Keeps(w, saved)
    requires Version(w) + |events| <= U32_MAX && ScreenVersion(w) + |events| <= U32_MAX
    ensures Keeps(Run(l, w, events).watch, SavedAtEnd(l, w, events, saved))
    decreases |events|
  {
    hide Step, Inv, Keeps, SavedAfter;
    if events == [] {
    } else {
      var next := Step(l, w, events[0]).watch;
      StepInv(l, w, events[0]);
      StepVersion(l, w, events[0]);
      StepKeepsSaved(l, w, events[0], saved);
      RunKeeps(l, next, events[1..], SavedAfter(w, events[0], next.state, saved));
    }
  }

  /**
   * Switched off at the end of any run, the watch comes back with the host data that was last
   * captured, on the screen that was last captured, if the record still loads; lost connections
   * in between change nothing of that.
   */
  lemma PowerOnRestores(l: C.Layout, w: Watch, events: seq<Event>, saved: Saved)
    requires Inv(w) && Keeps(w, saved)
    requires Version(w) + |events| <= U32_MAX && ScreenVersion(w) + |events| <= U32_MAX
    requires C.Valid(l, Run(l, w, events).watch.cache)
    ensures var again := Boot(l, Some(Run(l, w, events).watch.cache)).state;
            Saved(again.host, again.screen) == SavedAtEnd(l, w, events, saved)
  {
    RunKeeps(l, w, events, saved);
    RestoreShowsKept(l, Run(l, w, events).watch.cache);
    hide Run, SavedAtEnd, Boot, Kept, Inv;
  }

  lemma RestoreShowsKept(l: C.Layout, r: C.Record)
    requires C.Valid(l, r)
    ensures var s := Boot(l, Some(r)).state;
            Saved(s.host, s.screen) == Kept(r.contents)
  {
    hide C.Sum, C.RestoredHost;
  }

  /** A power-on starts with what the stored record keeps, if it loads, and otherwise with nothing. */
  lemma BootKeeps(l: C.Layout, stored: Option<C.Record>)
    requires stored.Some? && C.Valid(l, stored.value) ==> C.SameVersions(stored.value.contents)
    ensures Keeps(Boot(l, stored),
                  if stored.Some? && C.Valid(l, stored.value) then Kept(stored.value.contents) else NOTHING_SAVED)
  {
    hide C.Sum;
  }

  lemma NothingCaptured(l: C.Layout)
    ensures Version(Boot(l, None)) == 0 && ScreenVersion(Boot(l, None)) == 0
  {
    hide C.Sum;
  }

  /** From the first power-on, with no record yet, through any run and a power-on after it. */
  lemma FirstRunRestores(l: C.Layout, events: seq<Event>)
    requires |events| <= U32_MAX && C.Valid(l, Run(l, Boot(l, None), events).watch.cache)
    ensures var again := Boot(l, Some(Run(l, Boot(l, None), events).watch.cache)).state;
            Saved(again.host, again.screen) == SavedAtEnd(l, Boot(l, None), events, NOTHING_SAVED)
  {
    hide *;
    BootInv(l, None);
    BootKeeps(l, None);
    NothingCaptured(l);
    PowerOnRestores(l, Boot(l, None), events, NOTHING_SAVED);
  }

  /** A run in which nothing is captured brings back exactly what was shown when everything last was. */
  lemma {:induction false} QuietRunSaves(l: C.Layout, w: Watch, events: seq<Event>, saved: Saved)
    requires NoneCaptures(l, w, events)
    ensures SavedAtEnd(l, w, events, saved) == saved
    decreases |events|
  {
    hide Step, CapturesAll, CapturedCursor;
    if events == [] {
    } else {
      QuietRunSaves(l, Step(l, w, events[0]).watch, events[1..], saved);
    }
  }

  predicate NoneCaptures(l: C.Layout, w: Watch, events: seq<Event>)
    decreases |events|
  {
    events == [] ||
    (!CapturesAll(w, events[0]) && CapturedCursor(w, events[0]).None? &&
     NoneCaptures(l, Step(l, w, events[0]).watch, events[1..]))
  }

  /**
   * After any event that captures everything, any run that captures nothing more, a lost
   * connection in it or not, and a power-on: the host data is what was shown after that event.
   */
  lemma CapturedDataSurvives(l: C.Layout, w: Watch, e: Event, events: seq<Event>, saved: Saved)
    requires Inv(w) && Keeps(w, saved) && CapturesAll(w, e)
    requires Version(w) + |events| < U32_MAX && ScreenVersion(w) + |events| < U32_MAX
    requires var shown := Step(l, w, e).watch;
             NoneCaptures(l, shown, events) && C.Valid(l, Run(l, shown, events).watch.cache)
    ensures var shown := Step(l, w, e).watch;
            var again := Boot(l, Some(Run(l, shown, events).watch.cache)).state;
            again.host == shown.state.host && again.screen == saved.screen
  {
    var shown := Step(l, w, e).watch;
    StepInv(l, w, e);
    StepVersion(l, w, e);
    StepKeepsSaved(l, w, e, saved);
    hide Step, Inv, Keeps, Run, NoneCaptures, CapturesAll, Boot;
    var after := SavedAfter(w, e, shown.state, saved);
    PowerOnRestores(l, shown, events, after);
    QuietRunSaves(l, shown, events, after);
  }
}
