/**
 * Reconnecting to the bundled host, which answers every snapshot request with its first patch,
 * a snapshot at revision zero, and the remaining patches: where does the watch end up?
 */
module Reconnection {
  import opened Integers
  import opened WatchModel
  import opened WatchParse
  import opened Replication
  import opened ReplicationLaws
  import opened HostServer

  /** The watch, what is on its way to it, how often it has asked, and whether it has disconnected. */
  datatype Loop = Loop(sync: Sync, state: State, queue: seq<Packet>, requests: nat, failed: bool)

  function Receive(h: History, sync: Sync, state: State, p: Packet): Handled {
    match p
    case Patch(m) => HandleMutation(sync, state, m)
    case Snapshot => HandleSnapshot(sync, state, 0, h.base)
  }

  predicate Quiet(loop: Loop) {
    loop.failed || loop.queue == []
  }

  /** In-order delivery of the next packet; the host has sent all of one reply before it reads a request. */
  function Next(h: History, loop: Loop): Loop
    requires Serves(h)
  {
    if Quiet(loop) then loop
    else
      var r := Receive(h, loop.sync, loop.state, loop.queue[0]);
      if r.result == Error then Loop(r.sync, r.state, [], loop.requests, true)
      else if r.result == NeedsSnapshot
      then Loop(r.sync, r.state, loop.queue[1..] + Reply(h), loop.requests + 1, false)
      else Loop(r.sync, r.state, loop.queue[1..], loop.requests, false)
  }

  function Play(h: History, loop: Loop, steps: nat): Loop
    requires Serves(h)
    decreases steps
  {
    if steps == 0 then loop else Play(h, Next(h, loop), steps - 1)
  }

  /** A new connection: the watch keeps its revision, has nothing buffered, and asks for a snapshot. */
  function Start(h: History, revision: U64, state: State): Loop
    requires Serves(h)
  {
    Loop(Connected(Disconnected(Sync(revision, false, map[]))), state, Reply(h), 1, false)
  }

  /** Long enough for two replies. */
  function Session(h: History, revision: U64, state: State): Loop
    requires Serves(h)
  {
    Play(h, Start(h, revision, state), 2 * (|h.log| + 1))
  }

  /** The watch has everything the host has, after at most two requests. */
  predicate Synchronized(h: History, loop: Loop)
    requires Serves(h)
  {
    && !loop.failed && loop.queue == [] && loop.requests <= 2
    && loop.sync == Sync(|h.log|, false, map[])
    && loop.state.host == Fold(h, |h.log|)
  }

  lemma {:induction false} PlayCompose(h: History, loop: Loop, a: nat, b: nat)
    requires Serves(h)
    ensures Play(h, loop, a + b) == Play(h, Play(h, loop, a), b)
    decreases a
  {
    if a > 0 {
      PlayCompose(h, Next(h, loop), a - 1, b);
    }
  }

  lemma {:induction false} QuietStays(h: History, loop: Loop, steps: nat)
    requires Serves(h) && Quiet(loop)
    ensures Play(h, loop, steps) == loop
    decreases steps
  {
    if steps > 0 {
      QuietStays(h, loop, steps - 1);
    }
  }

  /** The buffer holding revisions `first + 1` to `last` of the log. */
  function Held(h: History, first: nat, last: nat): map<U64, Change>
    requires first <= last <= |h.log| <= U64_MAX
  {
    map r: U64 | first < r <= last :: Entry(h, r)
  }

  /** The change of a revision. */
  function Entry(h: History, r: nat): Change
    requires 1 <= r <= |h.log|
  {
    h.log[r - 1]
  }

  lemma {:induction false} HeldSize(h: History, first: nat, last: nat)
    requires first <= last <= |h.log| <= U64_MAX
    ensures |Held(h, first, last)| == last - first
    decreases last - first
  {
    if first == last {
      assert Held(h, first, last) == map[];
    } else {
      hide Held, Entry;
      HeldSize(h, first, last - 1);
      HeldGrows(h, first, last - 1);
      assert Held(h, first, last).Keys == Held(h, first, last - 1).Keys + {last};
    }
  }

  lemma HeldGrows(h: History, first: nat, last: nat)
    requires first <= last < |h.log| <= U64_MAX
    ensures Held(h, first, last)[last + 1 := h.log[last]] == Held(h, first, last + 1)
    ensures last + 1 !in Held(h, first, last)
  {}

  /** Replaying a buffer that holds the log from the snapshot on reaches its end. */
  lemma {:induction false} ReplayHeld(h: History, revision: U64, first: nat, last: U64)
    requires first <= revision <= last <= |h.log| <= U64_MAX
    ensures RunEnd(revision, Held(h, first, last)) == last
    ensures RunHost(revision, Fold(h, revision), Held(h, first, last)) == Fold(h, last)
    decreases last - revision
  {
    if revision < last {
      ReplayHeld(h, revision + 1, first, last);
    }
  }

  /** Patches in order to a synchronized watch are applied one by one. */
  lemma {:induction false} ApplyPatches(h: History, loop: Loop, first: U64, rest: seq<Packet>)
    requires Serves(h) && first <= |h.log| && !loop.failed
    requires loop.sync == Sync(first, false, map[]) && loop.state.host == Fold(h, first)
    requires loop.queue == Patches(h, first, |h.log|) + rest
    ensures var end := Play(h, loop, |h.log| - first);
            && end.sync == Sync(|h.log|, false, map[]) && end.state.host == Fold(h, |h.log|)
            && end.queue == rest && end.requests == loop.requests && !end.failed
    decreases |h.log| - first
  {
    if first < |h.log| {
      assert loop.queue[1..] == Patches(h, first + 1, |h.log|) + rest;
      ApplyPatches(h, Next(h, loop), first + 1, rest);
    } else {
      assert [] + rest == rest;
    }
  }

  /** Patches in order to a syncing watch at revision zero are buffered while there is room. */
  lemma {:induction false} BufferPatches(h: History, loop: Loop, first: nat, last: nat, rest: seq<Packet>)
    requires Serves(h) && 1 <= first <= last <= |h.log| && last <= BUFFER_CAPACITY + 1 && !loop.failed
    requires loop.sync == Sync(0, true, Held(h, 1, first)) && loop.queue == Patches(h, first, last) + rest
    ensures var end := Play(h, loop, last - first);
            end == loop.(sync := Sync(0, true, Held(h, 1, last)), queue := rest)
    decreases last - first
  {
    if first < last {
      assert loop.queue[1..] == Patches(h, first + 1, last) + rest;
      HeldSize(h, 1, first);
      HeldGrows(h, 1, first);
      BufferPatches(h, Next(h, loop), first + 1, last, rest);
    } else {
      assert [] + rest == rest;
    }
  }

  /** Patches a watch already has are dropped. */
  lemma {:induction false} DropPatches(h: History, loop: Loop, first: nat, last: nat)
    requires Serves(h) && first <= last <= |h.log| && !loop.failed
    requires loop.sync.revision >= last && loop.queue == Patches(h, first, last)
    ensures Play(h, loop, last - first) == loop.(queue := [])
    decreases last - first
  {
    if first < last {
      assert loop.queue[1..] == Patches(h, first + 1, last);
      DropPatches(h, Next(h, loop), first + 1, last);
    }
  }

  /** From revision zero, the first patch waits for the snapshot and is replayed over it. */
  lemma FirstPatchKept(h: History, state: State)
    requires Serves(h)
    ensures var installed := Play(h, Start(h, 0, state), 2);
            && installed.sync == Sync(1, false, map[]) && installed.state.host == Fold(h, 1)
            && installed.queue == Patches(h, 1, |h.log|) && installed.requests == 1 && !installed.failed
  {
    var start := Start(h, 0, state);
    var rest := Patches(h, 1, |h.log|);
    assert start.queue == Patches(h, 0, 1) + ([Snapshot] + rest);
    assert Patches(h, 0, 1) == [Patch(Mutation(1, h.log[0]))];
    var buffered := Next(h, start);
    HeldGrows(h, 0, 0);
    assert Held(h, 0, 0) == map[];
    assert buffered == start.(sync := Sync(0, true, Held(h, 0, 1)), queue := [Snapshot] + rest);
    ReplayHeld(h, 0, 0, 1);
    assert Beyond(Held(h, 0, 1), 1) == map[];
    assert Play(h, start, 2) == Next(h, buffered);
  }

  /** From revision zero, one reply is enough, however long the log. */
  lemma FromZero(h: History, state: State)
    requires Serves(h)
    ensures Synchronized(h, Session(h, 0, state)) && Session(h, 0, state).requests == 1
  {
    hide Next, Held, Beyond, RunEnd, RunHost, Patches, Reply;
    var n := |h.log|;
    var start := Start(h, 0, state);
    FirstPatchKept(h, state);
    var installed := Play(h, start, 2);
    assert installed.queue == Patches(h, 1, n) + [];
    ApplyPatches(h, installed, 1, []);
    PlayOn(h, start, 2, installed, n - 1, Play(h, installed, n - 1), 2 * (n + 1));
  }

  /** From any other revision, the first patch is dropped as stale and the snapshot resets to zero. */
  lemma AfterFirstReply(h: History, revision: U64, state: State)
    requires Serves(h) && revision >= 1
    ensures var reset := Play(h, Start(h, revision, state), 2);
            && reset.sync == Sync(0, false, map[]) && reset.state.host == h.base
            && reset.queue == Patches(h, 1, |h.log|) && reset.requests == 1 && !reset.failed
  {
    var start := Start(h, revision, state);
    var rest := Patches(h, 1, |h.log|);
    assert start.queue == Patches(h, 0, 1) + ([Snapshot] + rest);
    assert Patches(h, 0, 1) == [Patch(Mutation(1, h.log[0]))];
    var dropped := Next(h, start);
    assert dropped.queue == [Snapshot] + rest;
    assert Next(h, dropped).queue == rest;
    assert Beyond(map[], 0) == map[];
    assert Play(h, start, 2) == Next(h, dropped);
  }

  /** The second patch then reveals a gap, and the watch asks again. */
  lemma GapAtTwo(h: History, loop: Loop)
    requires Serves(h) && |h.log| >= 2 && !loop.failed
    requires loop.sync == Sync(0, false, map[]) && loop.queue == Patches(h, 1, |h.log|)
    ensures Next(h, loop) ==
            loop.(sync := Sync(0, true, Held(h, 1, 2)),
                  queue := Patches(h, 2, |h.log|) + Reply(h),
                  requests := loop.requests + 1)
  {
    assert Patches(h, 1, |h.log|)[1..] == Patches(h, 2, |h.log|);
    HeldGrows(h, 1, 1);
    assert Held(h, 1, 1) == map[];
  }

  lemma UpToGap(h: History, revision: U64, state: State) returns (k: nat, gap: Loop)
    requires Serves(h) && revision >= 1 && |h.log| >= 2
    ensures k == 3 && gap == Play(h, Start(h, revision, state), k)
    ensures gap.sync == Sync(0, true, Held(h, 1, 2)) && gap.queue == Patches(h, 2, |h.log|) + Reply(h)
    ensures gap.requests == 2 && !gap.failed
  {
    var start := Start(h, revision, state);
    AfterFirstReply(h, revision, state);
    var reset := Play(h, start, 2);
    GapAtTwo(h, reset);
    assert Play(h, reset, 1) == Next(h, reset);
    PlayCompose(h, start, 2, 1);
    k, gap := 3, Play(h, start, 3);
  }

  /** Following on from a known state, and staying there once nothing more happens. */
  lemma PlayOn(h: History, start: Loop, a: nat, middle: Loop, b: nat, end: Loop, total: nat)
    requires Serves(h) && Play(h, start, a) == middle && Play(h, middle, b) == end
    requires Quiet(end) && a + b <= total
    ensures Play(h, start, total) == end
  {
    hide *;
    PlayCompose(h, start, a, b);
    PlayCompose(h, start, a + b, total - (a + b));
    QuietStays(h, end, total - (a + b));
  }

  /** A log of 2 to 16 entries fits the buffer: the second reply completes it. */
  lemma SecondReplyCompletes(h: History, revision: U64, state: State)
    requires Serves(h) && revision >= 1 && 2 <= |h.log| <= BUFFER_CAPACITY
    ensures Synchronized(h, Session(h, revision, state)) && Session(h, revision, state).requests == 2
  {
    var n := |h.log|;
    var start := Start(h, revision, state);
    var k, gap := UpToGap(h, revision, state);
    BufferPatches(h, gap, 2, n, Reply(h));
    var held := Play(h, gap, n - 2);
    PlayCompose(h, start, k, n - 2);
    var completed := SecondReply(h, held);
    PlayOn(h, start, n + 1, held, n + 1, completed, 2 * (n + 1));
  }

  lemma SecondReply(h: History, held: Loop) returns (end: Loop)
    requires Serves(h) && 2 <= |h.log| <= BUFFER_CAPACITY && !held.failed && held.requests == 2
    requires held.sync == Sync(0, true, Held(h, 1, |h.log|)) && held.queue == Reply(h)
    ensures end == Play(h, held, |h.log| + 1) && Synchronized(h, end) && end.requests == 2
  {
    hide Next, Held, Beyond, RunEnd, RunHost;
    var n := |h.log|;
    var full := FirstPatchCompletes(h, held);
    var installed := SnapshotCompletes(h, full);
    hide Patches, Fold;
    DropPatches(h, installed, 1, n);
    assert Play(h, held, 2) == installed by {
      assert Play(h, full, 1) == installed;
    }
    PlayCompose(h, held, 2, n - 1);
    end := Play(h, held, n + 1);
  }

  /** The first patch of the second reply is the only one still missing from the buffer. */
  lemma FirstPatchCompletes(h: History, held: Loop) returns (full: Loop)
    requires Serves(h) && 2 <= |h.log| <= BUFFER_CAPACITY && !held.failed
    requires held.sync == Sync(0, true, Held(h, 1, |h.log|)) && held.queue == Reply(h)
    ensures full == Next(h, held)
    ensures full == held.(sync := Sync(0, true, Held(h, 0, |h.log|)), queue := [Snapshot] + Patches(h, 1, |h.log|))
  {
    var n := |h.log|;
    var rest := Patches(h, 1, n);
    assert held.queue == Patches(h, 0, 1) + ([Snapshot] + rest);
    assert Patches(h, 0, 1) == [Patch(Mutation(1, h.log[0]))];
    HeldSize(h, 1, n);
    full := Next(h, held);
    assert Held(h, 1, n)[1 := h.log[0]] == Held(h, 0, n);
  }

  /** A snapshot under the whole log replays it to its end. */
  lemma SnapshotCompletes(h: History, full: Loop) returns (installed: Loop)
    requires Serves(h) && !full.failed
    requires full.sync == Sync(0, true, Held(h, 0, |h.log|)) && full.queue == [Snapshot] + Patches(h, 1, |h.log|)
    ensures installed == Next(h, full)
    ensures installed.sync == Sync(|h.log|, false, map[]) && installed.state.host == Fold(h, |h.log|)
    ensures installed.queue == Patches(h, 1, |h.log|) && installed.requests == full.requests && !installed.failed
  {
    var n := |h.log|;
    ReplayHeld(h, 0, 0, n);
    assert Beyond(Held(h, 0, n), n) == map[];
    hide Held, Patches, RunEnd, RunHost, Fold;
    assert Fold(h, 0) == h.base by {
      FoldNothing(h);
    }
    installed := Next(h, full);
    assert installed.queue == Patches(h, 1, n);
  }

  lemma FoldNothing(h: History)
    ensures Fold(h, 0) == h.base
  {}

  /** A log of one entry: nothing after the snapshot reveals that the first patch was dropped. */
  lemma SingleEntryLost(h: History, revision: U64, state: State)
    requires Serves(h) && revision >= 1 && |h.log| == 1
    ensures var end := Session(h, revision, state);
            Quiet(end) && !end.failed && end.sync == Sync(0, false, map[]) && end.state.host == h.base
  {
    var start := Start(h, revision, state);
    AfterFirstReply(h, revision, state);
    PlayCompose(h, start, 2, 2);
    QuietStays(h, Play(h, start, 2), 2);
  }

  /** The buffer holds revisions 2 to 17, and the next packet is a patch of another revision. */
  predicate Full(h: History, loop: Loop, capacity: nat)
    requires Serves(h) && capacity + 1 <= |h.log|
  {
    && !loop.failed && loop.sync == Sync(0, true, Held(h, 1, capacity + 1))
    && loop.queue != [] && loop.queue[0].Patch?
    && (loop.queue[0].mutation.revision == 1 || loop.queue[0].mutation.revision == capacity + 2)
  }

  lemma FullBufferRefuses(h: History, loop: Loop, capacity: nat)
    requires Serves(h) && capacity == BUFFER_CAPACITY < |h.log| && Full(h, loop, capacity)
    ensures Next(h, loop).failed && Next(h, loop).sync.revision == 0
  {
    HeldSize(h, 1, capacity + 1);
  }

  lemma FillBuffer(h: History, gap: Loop, capacity: nat) returns (full: Loop)
    requires Serves(h) && capacity == BUFFER_CAPACITY < |h.log| && !gap.failed
    requires gap.sync == Sync(0, true, Held(h, 1, 2)) && gap.queue == Patches(h, 2, |h.log|) + Reply(h)
    ensures full == Play(h, gap, capacity - 1) && Full(h, full, capacity)
  {
    PatchesSplit(h, 2, capacity + 1, |h.log|);
    var rest := Patches(h, capacity + 1, |h.log|) + Reply(h);
    assert gap.queue == Patches(h, 2, capacity + 1) + rest;
    BufferPatches(h, gap, 2, capacity + 1, rest);
    full := Play(h, gap, capacity - 1);
    HeadOfRest(h, capacity + 1);
  }

  lemma HeadOfRest(h: History, first: nat)
    requires Serves(h) && first <= |h.log|
    ensures var rest := Patches(h, first, |h.log|) + Reply(h);
            && rest != [] && rest[0].Patch?
            && (rest[0].mutation.revision == 1 || rest[0].mutation.revision == first + 1)
  {
    assert Patches(h, 0, 1) == [Patch(Mutation(1, h.log[0]))];
    assert Reply(h)[0] == Patch(Mutation(1, h.log[0]));
  }

  /** A full buffer ends the session. */
  lemma FullEnds(h: History, start: Loop, a: nat, middle: Loop, b: nat, full: Loop, total: nat, capacity: nat)
    requires Serves(h) && Play(h, start, a) == middle && Play(h, middle, b) == full
    requires capacity == BUFFER_CAPACITY < |h.log| && Full(h, full, capacity) && a + b + 1 <= total
    ensures Play(h, start, total).failed && Play(h, start, total).sync.revision == 0
  {
    FullBufferRefuses(h, full, capacity);
    hide Next, Full, Serves;
    PlayCompose(h, start, a, b);
    assert Play(h, full, 1) == Next(h, full);
    PlayOn(h, start, a + b, full, 1, Next(h, full), total);
  }

  lemma FullSoon(h: History, revision: U64, state: State, capacity: nat) returns (k: nat, gap: Loop, full: Loop)
    requires Serves(h) && revision >= 1 && capacity == BUFFER_CAPACITY < |h.log|
    ensures k <= 3 && gap == Play(h, Start(h, revision, state), k)
    ensures full == Play(h, gap, capacity - 1) && Full(h, full, capacity)
  {
    k, gap := UpToGap(h, revision, state);
    full := FillBuffer(h, gap, capacity);
  }

  /** A log of 17 entries or more overflows the buffer before the second snapshot: the watch disconnects. */
  lemma LongLogFails(h: History, revision: U64, state: State, capacity: nat)
    requires Serves(h) && revision >= 1 && capacity == BUFFER_CAPACITY < |h.log|
    ensures Session(h, revision, state).failed && Session(h, revision, state).sync.revision == 0
  {
    var k, gap, full := FullSoon(h, revision, state, capacity);
    FullEnds(h, Start(h, revision, state), k, gap, capacity - 1, full, 2 * (|h.log| + 1), capacity);
  }

  /**
   * One connection leads the watch to the end of the log exactly when it starts from revision
   * zero or the log has 2 to 16 entries. The bundled host's log has four.
   */
  lemma ReconnectStabilizesIff(h: History, revision: U64, state: State)
    requires Serves(h)
    ensures Quiet(Session(h, revision, state))
    ensures Synchronized(h, Session(h, revision, state)) <==>
            revision == 0 || 2 <= |h.log| <= 16
  {
    if revision == 0 {
      FromZero(h, state);
    } else if |h.log| == 1 {
      SingleEntryLost(h, revision, state);
    } else if |h.log| <= BUFFER_CAPACITY {
      SecondReplyCompletes(h, revision, state);
    } else {
      LongLogFails(h, revision, state, BUFFER_CAPACITY);
    }
  }

  /** A connection that does not get there leaves the revision at zero, so the next one does. */
  lemma SecondConnectionSuffices(h: History, revision: U64, state: State)
    requires Serves(h) && !Synchronized(h, Session(h, revision, state))
    ensures var first := Session(h, revision, state);
            Synchronized(h, Session(h, first.sync.revision, first.state))
  {
    var first := Session(h, revision, state);
    ReconnectStabilizesIff(h, revision, state);
    if |h.log| == 1 {
      SingleEntryLost(h, revision, state);
    } else {
      LongLogFails(h, revision, state, BUFFER_CAPACITY);
    }
    FromZero(h, first.state);
  }
}
