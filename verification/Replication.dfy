/**
 * The rules of state replication on the watch, over an abstract replica whose buffer is a map
 * from revision to change. `WatchSync` implements them with unsorted slots.
 */
module Replication {
  import opened Integers
  import opened WatchModel
  import opened Wire
  import opened WatchParse

  const BUFFER_CAPACITY := 16

  datatype SyncResult = Unchanged | Changed | Buffered | NeedsSnapshot | Error

  datatype Sync = Sync(revision: U64, syncing: bool, buffer: map<U64, Change>)

  datatype Handled = Handled(result: SyncResult, sync: Sync, state: State)

  const FRESH := Sync(0, false, map[])

  /** The last revision of the contiguous run that follows `revision`. */
  function RunEnd(revision: U64, buffer: map<U64, Change>): (e: U64)
    ensures e >= revision
    decreases U64_MAX - revision
  {
    if revision < U64_MAX && revision + 1 in buffer then RunEnd(revision + 1, buffer) else revision
  }

  /** The host data after that run. */
  function RunHost(revision: U64, host: HostData, buffer: map<U64, Change>): HostData
    decreases U64_MAX - revision
  {
    if revision < U64_MAX && revision + 1 in buffer
    then RunHost(revision + 1, Applied(host, buffer[revision + 1]), buffer)
    else host
  }

  function Beyond(buffer: map<U64, Change>, revision: U64): map<U64, Change> {
    map r | r in buffer && r > revision :: buffer[r]
  }

  /** Installing a snapshot: the run that follows it is replayed, what lies beyond a gap stays. */
  function Install(sync: Sync, revision: U64): Sync {
    var last := RunEnd(revision, sync.buffer);
    var rest := Beyond(sync.buffer, last);
    Sync(last, rest != map[], rest)
  }

  /** The first mutation buffered for a revision wins; a new revision needs a free slot. */
  function AddToBuffer(buffer: map<U64, Change>, m: Mutation): Option<map<U64, Change>> {
    if m.revision in buffer then Some(buffer)
    else if |buffer| < BUFFER_CAPACITY then Some(buffer[m.revision := m.change])
    else None
  }

  function HandleMutation(sync: Sync, state: State, m: Mutation): Handled {
    if m.revision <= sync.revision then Handled(Unchanged, sync, state)
    else if sync.syncing then
      var added := AddToBuffer(sync.buffer, m);
      if added.Some? then Handled(Buffered, sync.(buffer := added.value), state) else Handled(Error, sync, state)
    else if m.revision > sync.revision + 1 then
      var added := AddToBuffer(sync.buffer, m);
      if added.Some? then Handled(NeedsSnapshot, sync.(syncing := true, buffer := added.value), state)
      else Handled(Error, sync.(syncing := true), state)
    else
      Handled(Changed, sync.(revision := m.revision), state.(host := Applied(state.host, m.change)))
  }

  function HandleSnapshot(sync: Sync, state: State, revision: U64, host: HostData): Handled {
    var installed := Install(sync, revision);
    Handled(if installed.syncing then NeedsSnapshot else Changed, installed,
            ResetHostOwned(state).(host := RunHost(revision, host, sync.buffer)))
  }

  function Handle(sync: Sync, state: State, m: Message): Handled {
    if m.kind == SyncResponse then
      var snapshot := ParseSnapshot(m.payload);
      if snapshot.None? then Handled(Error, sync, state)
      else HandleSnapshot(sync, state, snapshot.value.0, snapshot.value.1)
    else if m.kind != StateSet && m.kind != StatePatch then Handled(Unchanged, sync, state)
    else
      var mutation := ParseMutation(m);
      if mutation.None? then Handled(Error, sync, state) else HandleMutation(sync, state, mutation.value)
  }

  function Connected(sync: Sync): Sync {
    sync.(syncing := true)
  }

  function Disconnected(sync: Sync): Sync {
    sync.(syncing := false, buffer := map[])
  }

  /** One round of replay: the next entry is taken. */
  lemma RunStep(revision: U64, host: HostData, buffer: map<U64, Change>)
    requires revision < U64_MAX && revision + 1 in buffer
    ensures RunEnd(revision, buffer) == RunEnd(revision + 1, buffer)
    ensures RunHost(revision, host, buffer) == RunHost(revision + 1, Applied(host, buffer[revision + 1]), buffer)
  {}

  lemma SubsetSize<T>(a: set<T>, b: set<T>)
    requires a <= b
    ensures |a| <= |b|
  {
    assert b == a + (b - a);
  }

  lemma BeyondSize(m: map<U64, Change>, revision: U64)
    ensures |Beyond(m, revision)| <= |m|
  {
    SubsetSize(Beyond(m, revision).Keys, m.Keys);
  }
}
