/** What every step of replication keeps, what replay applies, and why delivery order does not matter. */
module ReplicationLaws {
  import opened Integers
  import opened WatchModel
  import opened Wire
  import opened WatchParse
  import opened Replication

  /** Buffered revisions are ahead of the current one, and nothing is buffered outside of syncing. */
  predicate SyncOk(sync: Sync) {
    (forall r :: r in sync.buffer ==> r > sync.revision) &&
    (!sync.syncing ==> sync.buffer == map[]) &&
    |sync.buffer| <= BUFFER_CAPACITY
  }

  lemma MapSize(m: map<U64, Change>)
    ensures |m| == |m.Keys|
  {}

  /**
   * Every message keeps the invariant. A gap never reports a full buffer, an error changes
   * nothing at all, and watch-owned fields are never touched.
   */
  lemma HandleKeepsInvariant(sync: Sync, state: State, m: Message)
    requires SyncOk(sync)
    ensures var h := Handle(sync, state, m);
            && SyncOk(h.sync)
            && (h.result == Error ==> h.sync == sync && h.state == state)
            && (h.result == NeedsSnapshot ==> h.sync.syncing)
            && (h.result == Changed ==> !h.sync.syncing)
            && (h.state.screen, h.state.connection, h.state.battery) == (state.screen, state.connection, state.battery)
  {
    if m.kind == SyncResponse && ParseSnapshot(m.payload).Some? {
      var revision := ParseSnapshot(m.payload).value.0;
      BeyondSize(sync.buffer, RunEnd(revision, sync.buffer));
    }
  }

  // ---------- what is shown ----------

  /** The host data once the value at the path of a well-formed mutation is shown. */
  predicate ShowsValue(before: HostData, path: string, value: Json, after: HostData) {
    && (path == "weather.temperature" ==> value.Num? && after == before.(temperature := after.temperature)
                                          && after.temperature == value.value)
    && (path == "weather.condition" ==> value.Str? && after == before.(condition := FirstChars(value.text, 31)))
    && (path == "music.title" ==> value.Str? && after == before.(title := FirstChars(value.text, 63)))
    && (path == "music.playing" ==> value.Bool? && after == before.(playing := value.flag))
    && (path == "steps" ==> value.Num? && after == before.(steps := after.steps) && after.steps == value.value)
    && (path == "notifications" ==> ListOk(value) && after == before.(notifications := ListValue(value)))
  }

  lemma AppliedShows(h: HostData, path: string, value: Json, c: Change)
    requires ChangeReads(path, value, c)
    requires path in ["weather.temperature", "weather.condition", "music.title", "music.playing", "steps",
                      "notifications"]
    ensures ShowsValue(h, path, value, Applied(h, c))
  {
    hide ListOk, ListValue;
  }

  /** A well-formed mutation whose turn it is shows its value and changes nothing else. */
  lemma InOrderShows(sync: Sync, state: State, m: Message)
    requires (m.kind == StateSet || m.kind == StatePatch) && MutationWellFormed(m)
    requires !sync.syncing && sync.revision < U64_MAX && m.payload["revision"].value == sync.revision + 1
    ensures var h := Handle(sync, state, m);
            && h.result == Changed && h.sync == sync.(revision := sync.revision + 1)
            && h.state == state.(host := h.state.host)
            && ShowsValue(state.host, m.payload["path"].text, m.payload["value"], h.state.host)
  {
    MutationReadIff(m);
    KnownPath(m);
    AppliedShows(state.host, m.payload["path"].text, m.payload["value"], ParseMutation(m).value.change);
    hide ParseMutation, ChangeReads, MutationWellFormed, ShowsValue, Applied;
  }

  lemma KnownPath(m: Message)
    requires MutationWellFormed(m)
    ensures m.payload["path"].text in ["weather.temperature", "weather.condition", "music.title", "music.playing",
                                       "steps", "notifications"]
  {
    hide ListOk;
  }

  /**
   * A well-formed snapshot with nothing buffered shows its state, with everything else of the
   * host reset, also what an action under way shows, and what the watch owns left alone.
   */
  lemma SnapshotShows(sync: Sync, state: State, m: Message)
    requires m.kind == SyncResponse && SnapshotWellFormed(m.payload) && sync.buffer == map[]
    ensures var h := Handle(sync, state, m);
            && h.result == Changed
            && h.sync.revision == m.payload["revision"].value && !h.sync.syncing && h.sync.buffer == map[]
            && StateReads(m.payload["state"].members, h.state.host)
            && (h.state.screen, h.state.connection, h.state.battery) == (state.screen, state.connection, state.battery)
            && (h.state.actionPending, h.state.feedback, h.state.stale, h.state.updatedAt) == (false, "", false, 0)
  {
    SnapshotReadIff(m.payload);
    var revision := ParseSnapshot(m.payload).value.0;
    assert Beyond(map[], revision) == map[];
    hide ParseSnapshot, StateReads, SnapshotWellFormed;
  }

  function ApplyAll(host: HostData, changes: seq<Change>): HostData {
    if changes == [] then host else Applied(ApplyAll(host, changes[..|changes| - 1]), changes[|changes| - 1])
  }

  function Run(buffer: map<U64, Change>, first: U64, last: U64): seq<Change>
    requires first <= last && HasRun(buffer, first, last)
  {
    seq(last - first, i requires 0 <= i < last - first => var r: U64 := first + 1 + i; buffer[r])
  }

  lemma {:induction false} ApplyAllFront(host: HostData, c: Change, changes: seq<Change>)
    ensures ApplyAll(host, [c] + changes) == ApplyAll(Applied(host, c), changes)
  {
    var all := [c] + changes;
    if changes == [] {
      assert all[..0] == [];
    } else {
      assert all[..|all| - 1] == [c] + changes[..|changes| - 1];
      ApplyAllFront(host, c, changes[..|changes| - 1]);
    }
  }

  lemma RunFront(buffer: map<U64, Change>, first: U64, last: U64)
    requires first < last && HasRun(buffer, first, last)
    ensures Run(buffer, first, last) == [buffer[first + 1]] + Run(buffer, first + 1, last)
  {}

  /**
   * Replay applies exactly the maximal contiguous run after the snapshot, in increasing order,
   * leaves exactly the entries beyond the gap, and keeps syncing exactly when some are left.
   */
  lemma {:induction false} ReplayIsMaximalRun(revision: U64, host: HostData, buffer: map<U64, Change>)
    ensures var last := RunEnd(revision, buffer);
            && HasRun(buffer, revision, last)
            && (last < U64_MAX ==> last + 1 !in buffer)
            && RunHost(revision, host, buffer) == ApplyAll(host, Run(buffer, revision, last))
    decreases U64_MAX - revision
  {
    if revision < U64_MAX && revision + 1 in buffer {
      var next: U64 := revision + 1;
      var after := Applied(host, buffer[next]);
      ReplayIsMaximalRun(next, after, buffer);
      var last := RunEnd(next, buffer);
      RunFront(buffer, revision, last);
      ApplyAllFront(host, buffer[next], Run(buffer, next, last));
    }
  }

  /** Replay depends only on the buffered entries above the revision of the snapshot. */
  lemma {:induction false} ReplayIgnoresOvertaken(
    revision: U64, host: HostData, a: map<U64, Change>, b: map<U64, Change>)
    requires Beyond(a, revision) == Beyond(b, revision)
    ensures RunEnd(revision, a) == RunEnd(revision, b) && RunHost(revision, host, a) == RunHost(revision, host, b)
    ensures Install(Sync(0, true, a), revision) == Install(Sync(0, true, b), revision)
    decreases U64_MAX - revision
  {
    assert forall r :: r in Beyond(a, revision) <==> r in a && r > revision;
    assert forall r :: r in Beyond(b, revision) <==> r in b && r > revision;
    if revision < U64_MAX && revision + 1 in a {
      var next: U64 := revision + 1;
      assert next in Beyond(a, revision);
      assert next in b && a[next] == b[next];
      assert Beyond(a, next) == Beyond(b, next);
      ReplayIgnoresOvertaken(next, Applied(host, a[next]), a, b);
    } else {
      assert revision < U64_MAX ==> revision + 1 !in Beyond(b, revision);
    }
  }

  // ---------- delivery order ----------

  /** Deliveries while syncing, and whether there was room for all of them. */
  function DeliverAll(sync: Sync, state: State, ms: seq<Mutation>): (Sync, bool)
    decreases |ms|
  {
    if ms == [] then (sync, true)
    else
      var h := HandleMutation(sync, state, ms[0]);
      var (last, roomy) := DeliverAll(h.sync, state, ms[1..]);
      (last, roomy && h.result != Error)
  }

  /** Duplicates carry the same change as each other and as what is buffered already. */
  predicate Agreeing(buffer: map<U64, Change>, ms: seq<Mutation>) {
    (forall m, n :: m in ms && n in ms && m.revision == n.revision ==> m.change == n.change) &&
    (forall m :: m in ms && m.revision in buffer ==> buffer[m.revision] == m.change)
  }

  /** The distinct revisions that have to be held. */
  function Ahead(sync: Sync, ms: seq<Mutation>): set<U64> {
    sync.buffer.Keys + (set m | m in ms && m.revision > sync.revision :: m.revision)
  }

  function MergeOne(buffer: map<U64, Change>, revision: U64, m: Mutation): map<U64, Change> {
    if m.revision > revision && m.revision !in buffer then buffer[m.revision := m.change] else buffer
  }

  function Merged(buffer: map<U64, Change>, revision: U64, ms: seq<Mutation>): map<U64, Change>
    decreases |ms|
  {
    if ms == [] then buffer else Merged(MergeOne(buffer, revision, ms[0]), revision, ms[1..])
  }

  lemma {:induction false} MergedKeeps(buffer: map<U64, Change>, revision: U64, ms: seq<Mutation>, r: U64)
    requires r in buffer
    ensures r in Merged(buffer, revision, ms) && Merged(buffer, revision, ms)[r] == buffer[r]
    decreases |ms|
  {
    if ms == [] {
    } else {
      MergedKeeps(MergeOne(buffer, revision, ms[0]), revision, ms[1..], r);
    }
  }

  lemma {:induction false} MergedOrigin(buffer: map<U64, Change>, revision: U64, ms: seq<Mutation>, r: U64)
    requires r in Merged(buffer, revision, ms) && r !in buffer
    ensures exists m :: m in ms && m.revision == r && r > revision && m.change == Merged(buffer, revision, ms)[r]
    decreases |ms|
  {
    var next := MergeOne(buffer, revision, ms[0]);
    if r in next {
      MergedKeeps(next, revision, ms[1..], r);
      assert ms[0] in ms;
    } else {
      MergedOrigin(next, revision, ms[1..], r);
      var m :| m in ms[1..] && m.revision == r && r > revision && m.change == Merged(next, revision, ms[1..])[r];
      assert m in ms;
    }
  }

  lemma {:induction false} MergedHolds(buffer: map<U64, Change>, revision: U64, ms: seq<Mutation>, i: nat)
    requires i < |ms| && ms[i].revision > revision
    ensures ms[i].revision in Merged(buffer, revision, ms)
    decreases |ms|
  {
    var next := MergeOne(buffer, revision, ms[0]);
    if i == 0 {
      MergedKeeps(next, revision, ms[1..], ms[0].revision);
    } else {
      MergedHolds(next, revision, ms[1..], i - 1);
    }
  }

  lemma MergedKeys(sync: Sync, ms: seq<Mutation>)
    ensures Merged(sync.buffer, sync.revision, ms).Keys == Ahead(sync, ms)
  {
    var merged := Merged(sync.buffer, sync.revision, ms);
    forall r | r in Ahead(sync, ms)
      ensures r in merged
    {
      if r in sync.buffer {
        MergedKeeps(sync.buffer, sync.revision, ms, r);
      } else {
        var m :| m in ms && m.revision > sync.revision && m.revision == r;
        var i :| 0 <= i < |ms| && ms[i] == m;
        MergedHolds(sync.buffer, sync.revision, ms, i);
      }
    }
    forall r | r in merged
      ensures r in Ahead(sync, ms)
    {
      if r !in sync.buffer {
        MergedOrigin(sync.buffer, sync.revision, ms, r);
      }
    }
  }

  /** With room for every distinct revision, deliveries while syncing only merge into the buffer. */
  lemma {:induction false} DeliverAllMerges(sync: Sync, state: State, ms: seq<Mutation>)
    requires sync.syncing && |Merged(sync.buffer, sync.revision, ms)| <= BUFFER_CAPACITY
    ensures DeliverAll(sync, state, ms) == (sync.(buffer := Merged(sync.buffer, sync.revision, ms)), true)
    decreases |ms|
  {
    if ms == [] {
    } else {
      var next := MergeOne(sync.buffer, sync.revision, ms[0]);
      MergedGrows(next, sync.revision, ms[1..]);
      if next != sync.buffer {
        assert next.Keys == sync.buffer.Keys + {ms[0].revision};
        MapSize(next);
        MapSize(sync.buffer);
      }
      DeliverAllMerges(sync.(buffer := next), state, ms[1..]);
    }
  }

  lemma MergedGrows(buffer: map<U64, Change>, revision: U64, ms: seq<Mutation>)
    ensures |buffer| <= |Merged(buffer, revision, ms)|
  {
    forall r | r in buffer
      ensures r in Merged(buffer, revision, ms)
    {
      MergedKeeps(buffer, revision, ms, r);
    }
    SubsetSize(buffer.Keys, Merged(buffer, revision, ms).Keys);
  }

  lemma MergeOrder(buffer: map<U64, Change>, revision: U64, ms: seq<Mutation>, ns: seq<Mutation>, r: U64)
    requires Agreeing(buffer, ms) && forall m :: m in ms <==> m in ns
    requires r in Merged(buffer, revision, ms) && r in Merged(buffer, revision, ns)
    ensures Merged(buffer, revision, ms)[r] == Merged(buffer, revision, ns)[r]
  {
    if r in buffer {
      MergedKeeps(buffer, revision, ms, r);
      MergedKeeps(buffer, revision, ns, r);
    } else {
      MergedOrigin(buffer, revision, ms, r);
      MergedOrigin(buffer, revision, ns, r);
    }
  }

  /**
   * Confluence: two deliveries of the same mutations, in any order and with any duplicates, none
   * of them refused, followed by the same snapshot, end in the same result, replica and state.
   */
  lemma DeliveryOrderIrrelevant(
    sync: Sync, state: State, ms: seq<Mutation>, ns: seq<Mutation>, revision: U64, host: HostData)
    requires sync.syncing && |Ahead(sync, ms)| <= 16
    requires Agreeing(sync.buffer, ms) && forall m :: m in ms <==> m in ns
    ensures DeliverAll(sync, state, ms) == DeliverAll(sync, state, ns) && DeliverAll(sync, state, ms).1
    ensures HandleSnapshot(DeliverAll(sync, state, ms).0, state, revision, host) ==
            HandleSnapshot(DeliverAll(sync, state, ns).0, state, revision, host)
  {
    hide Merged, DeliverAll, HandleSnapshot, Agreeing;
    var a, b := Merged(sync.buffer, sync.revision, ms), Merged(sync.buffer, sync.revision, ns);
    MergedKeys(sync, ms);
    MergedKeys(sync, ns);
    assert Ahead(sync, ms) == Ahead(sync, ns);
    forall r | r in a
      ensures a[r] == b[r]
    {
      MergeOrder(sync.buffer, sync.revision, ms, ns, r);
    }
    assert a == b;
    MapSize(a);
    DeliverAllMerges(sync, state, ms);
    DeliverAllMerges(sync, state, ns);
  }

  // ---------- logs ----------

  /** What a host serves on one connection: the data at revision zero, and the changes after it. */
  datatype History = History(base: HostData, log: seq<Change>)

  function Fold(h: History, n: nat): HostData
    requires n <= |h.log|
  {
    if n == 0 then h.base else Applied(Fold(h, n - 1), h.log[n - 1])
  }

  predicate FromLog(h: History, revision: nat, c: Change) {
    1 <= revision <= |h.log| && h.log[revision - 1] == c
  }

  predicate BufferFromLog(h: History, buffer: map<U64, Change>) {
    forall r :: r in buffer ==> FromLog(h, r, buffer[r])
  }

  /** Replaying log entries over a prefix of the log gives a longer prefix. */
  lemma {:induction false} ReplayOfLog(h: History, revision: U64, buffer: map<U64, Change>)
    requires revision <= |h.log| && BufferFromLog(h, buffer)
    ensures RunEnd(revision, buffer) <= |h.log|
    ensures RunHost(revision, Fold(h, revision), buffer) == Fold(h, RunEnd(revision, buffer))
    decreases U64_MAX - revision
  {
    if revision < U64_MAX && revision + 1 in buffer {
      var next: U64 := revision + 1;
      assert FromLog(h, next, buffer[next]);
      ReplayOfLog(h, next, buffer);
    }
  }
}
