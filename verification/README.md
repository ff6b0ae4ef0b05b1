# Watch and host synchronization, verified

This project models how the watch firmware and the host crate of the CMF Watch Pro 2 simulator keep
their state in step: the frame codecs, the revision-numbered replication on both sides, the
optimistic music action, the checksummed cache record, and the runtime that wires them together.

Code that updates objects or arrays in the source is a class or a method here, proved equal to a
specification function on values; the theorems are about those functions and about whole runs.

| file | what it holds |
|---|---|
| `Integers`, `Wire`, `WatchModel` | integer widths, parsed messages, the watch state |
| `Utf8`, `Numbers`, `Checksum` | the UTF-8 validator, the decimal parsers, the FNV-1a seal |
| `Lines`, `WatchFraming`, `HostFraming`, `FramingRoundTrip`, `Fragmentation` | framing on both sides, and received bytes as runs |
| `WatchParse`, `Replication`, `WatchSync`, `ReplicationLaws` | reading payloads, the rules of replication, the sixteen-slot implementation, its laws |
| `Paths`, `HostStore`, `Simulation` | the host crate's reducer, and its simulation by the watch |
| `WatchActions`, `WatchCache` | the optimistic action, the cache record |
| `RuntimeModel`, `WatchRuntime` | the transition system of the watch, and the handlers that implement it |
| `EventEffects` | what each event shows, sends and caches |
| `RuntimeInvariants`, `RuntimeRuns`, `ActionRuns`, `CacheRuns`, `CachedFlags`, `SavedData`, `LogSafety` | theorems over all runs |
| `HostServer`, `Reconnection`, `ReconnectionRuns` | the bundled host, the closed loop with it, and that loop as runs of the watch |

Main results:

- In every run, with any loss, duplication, reordering, errors, user actions and reconnections, the
  host data shown after a snapshot is the fold of the first `revision` entries of the host's log, up to
  the music flag and the notification cursor if the user has touched those since
  (`HostDataIsLogPrefix`). Whatever the host sends, the watch shows itself online only with a snapshot
  of this connection (`OnlineOnlyAfterSnapshot`).
- The watch's sixteen unsorted slots implement the ordered buffer (`ReplayBuffer`). On every stream of
  messages, up to the first error of the watch or the last revision, the watch and the host crate's
  store have the same data, revision, syncing flag and buffer all along, if and only if the store never
  takes a list edit (`StreamsSimulateIff`).
- Delivery order and duplicates do not matter while syncing (`DeliveryOrderIrrelevant`); neither does
  the fragmentation of the byte stream at the watch (`FragmentationInvisible`), which makes of any
  received bytes a run of the transition system (`ReceiveIsRun`).
- UTF-8 validation is exact, integer parsing is exact, refusal codes included, and any one-byte
  corruption of a cache record is detected.
- Switched off at any moment of any run, the watch comes back with the host data and the screen that were
  last captured, if its record still loads (`PowerOnRestores`, `CapturedDataSurvives`).
- Which mutations and snapshots the watch reads, and what it then shows, is stated on the members of the
  payload (`MutationReadIff`, `SnapshotReadIff`, `InOrderShows`, `SnapshotShows`); what the host crate's
  store writes, on the paths and positions of its tree (`WriteEffect`, `ListEditEffect`).
- Actions are conserved, late replies are ignored, and a rollback restores the value before the tap.

What turned out false of the code, with the exact condition under which it holds:

- One reconnection reaches the end of the host's log exactly when the watch starts from revision zero
  or the log has 2 to 16 entries (`ReconnectStabilizesIff`, and for the watch with all its parts
  `WatchReconnectsIff`). With one entry the first patch is dropped as stale and nothing reveals it; with
  17 or more the buffer overflows. A connection that does not get there leaves the revision at zero, so
  the next one does.
- The watch and the store do not take the same messages. One message that is not a snapshot leaves
  them related exactly when the watch supports it and has a slot for it, or the store has nothing to do
  with it either, because it is malformed, overtaken, buffered already or refused (`StaysRelatedIff`,
  `ActsIff`). A list edit that the store applies is passed over by the watch, which asks for a snapshot at
  the next mutation (`ListEditLeavesGap`). A mutation of a path the watch does
  not show, such as the calendar, the assistant or the whole of `weather`, is an error there
  (`OtherPathIsError`), and an error closes the connection (`ErrorClosesOnly`). A snapshot the watch can
  read brings the two together again, whatever parted them, if their buffers match (`SnapshotSimulates`).
- Every fragmentation is received by the host without an error exactly when every frame decodes and
  every line, counted with its carriage return, has at most 16384 bytes (`EveryCutSucceedsIff`); the
  watch takes exactly those streams (`WatchAcceptsIff`). What the host makes of a stream is independent
  of the fragmentation exactly then, or when already the first frame has an error that every
  fragmentation reports (`HostChunkIndependence`).
- Installing a snapshot on the host crate's store succeeds exactly when the run of buffered messages
  after it ends before 2^64 - 1 and each of them passes the checks on its path, its value and what is at
  its path (`InstallOkIff`, with `AppliesIff`). When one is refused, the store is always left in between:
  the snapshot and the run before that message are in place, the message is gone, and syncing goes on
  as before (`FailedInstallIsNotAtomic`). While syncing, a message that can never be applied is buffered
  unchecked, and blocks every snapshot whose run reaches it (`ForeignPathBlocksSnapshot`).
- The record would load at every moment of a run exactly when every notification cursor that is captured
  on its own, by navigating or moving through the list, points into the list cached by then
  (`ValidThroughoutIff`). Without snapshots that leave a gap it always does (`RecordStaysValid`); such a
  snapshot can break it (`GapSnapshotBreaksRecord`).
- The cached music flag is the one shown all through a run exactly when no timeout and no lost connection
  rolls back a flag that differs, and no snapshot that leaves a gap brings one (`RecordFollowsIff`).
- While the connection is down, the cached domains are all marked stale exactly when the music screen has
  not been tapped since the connection last went down with anything cached; before it has, exactly when it
  has not been tapped and they were marked to begin with (`CachedFlagsIff`). From power-on that is the
  mark of the stored record (`CachedFlagsFromPowerOn`): one saved while online has none, although the data
  it restores is shown as stale (`PowerOnFlags`).
- The host gives accepted actions increasing revisions exactly when no snapshot request comes between
  two of them, except that the first one on a connection may, as long as the actions before it have
  not got past the end of the log (`ActionRevisionsIncreaseIff`, `FreshConnectionIncreasesIff`).
- A rollback agrees with an authoritative patch that arrived meanwhile exactly when the patch carried
  the value from before the tap (`RollbackOverridesPatch`), and with the log exactly when the log has
  that value (`RollbackInStepIff`).
- The revision of the watch never goes back exactly when no snapshot of an earlier revision arrives
  (`RevisionNonDecreasingIff`).

Where code and documentation disagree, the model follows the code:

- `docs/protocol.md:114` gives 16384 bytes excluding the delimiter, with CRLF accepted. The watch counts
  the carriage return, the host does when it arrives without its line feed (`LargestFrameWithCr`).
- `docs/protocol.md:123` has the watch send its last revision when it connects; `transport.c:64` sends zero.
- `docs/protocol.md:134` says errors never partially mutate state; a failed snapshot installation in the
  host crate does.
- `docs/protocol.md:44` has revisions increase globally; the bundled host reuses them, as above.
- `docs/protocol.md:44-48` gives one revision to every mutation; the watch ignores the `list_*` kinds
  without advancing, so the next mutation is a gap (`ListEditLeavesGap`).

## Model

| member | source | states |
|---|---|---|
| Checksum.ComputeChecksum | watch/src/cache/watch_cache.c:6-17 | the loop computes FNV-1a of the record with its checksum field zero |
| Checksum.Seal | watch/src/cache/watch_cache.c:59-62 | sealing makes the check pass and writes only the checksum field |
| Checksum.TimesInjective | watch/src/cache/watch_cache.c:14 | multiplying by the prime modulo 2^32 loses nothing |
| Checksum.MixInjective | watch/src/cache/watch_cache.c:12-15 | one hash step is injective in the hash and in the byte |
| Checksum.MixUndone | watch/src/cache/watch_cache.c:12-15 | a hash step is undone by multiplying back and then taking the byte off, the order of FNV-1a |
| Checksum.FnvDetectsByte | watch/src/cache/watch_cache.c:6-17 | changing one hashed byte, at any place, changes the hash |
| Checksum.FieldCorruptionDetected | watch/src/cache/watch_cache.c:45-57 | any change confined to the checksum field is refused |
| Checksum.OneByteCorruptionDetected | watch/src/cache/watch_cache.c:45-57 | any one-byte change to a sealed record of any length is refused |
| Utf8.ReadLead | watch/src/protocol/watch_protocol.c:57-68 | the lead-byte tests announce the continuation bytes of RFC 3629 and carry their bits |
| Utf8.ReadContinuation | watch/src/protocol/watch_protocol.c:72-78 | accumulates the payload bits, and fails exactly at a byte that is not a continuation byte |
| Utf8.CheckChar | watch/src/protocol/watch_protocol.c:50-84 | accepts exactly a character of the section 4 grammar and steps over it |
| Utf8.AcceptableIffChar | watch/src/protocol/watch_protocol.c:79-84 | the tests on the code point amount to the byte ranges of the grammar |
| Utf8.WellFormedIffEncoding | watch/src/protocol/watch_protocol.c:47-87 | the section 4 grammar accepts exactly the section 3 encodings of scalar sequences |
| Utf8.DecodeEncode | watch/src/protocol/watch_protocol.c:47-87 | decoding an encoding gives the scalars back |
| Utf8.EncodeDecode | watch/src/protocol/watch_protocol.c:47-87 | encoding a decoded string gives the bytes back |
| Utf8.EncodingUnique | watch/src/protocol/watch_protocol.c:47-87 | no byte string encodes two scalar sequences |
| Utf8.ValidUtf8 | watch/src/protocol/watch_protocol.c:47-87 | accepts exactly the encodings of sequences of Unicode scalar values |
| Numbers.GuardExact | watch/src/state/watch_sync.c:22 | the overflow guard fires only when the next value is out of range |
| Numbers.ParseMagnitude | watch/src/state/watch_sync.c:18-24 | the shared loop accepts exactly digit strings within the limit, and tells digits beyond it from other texts |
| Numbers.ParseU64 | watch/src/state/watch_sync.c:15-27 | accepts exactly the nonempty digit strings up to 2^64 - 1, with their value; out of range exactly when the digits the text begins with are beyond that |
| Numbers.ParseI64 | watch/src/state/watch_sync.c:29-44 | accepts an optional minus and digits of magnitude up to 2^63 - 1, with the signed value; out of range when those digits are beyond that |
| Numbers.ParseU32 | watch/src/protocol/watch_protocol.c:89-106 | accepts exactly the nonempty digit strings up to 2^32 - 1, with their value; out of range when those digits are beyond that |
| Numbers.PrintedIntegerParses | watch/src/state/watch_sync.c:29-44 | printing then parsing is the identity for every signed 64-bit integer but -2^63 |
| Lines.SplitJoined | docs/protocol.md:109-117 | splitting a stream of joined lines gives the lines back |
| Lines.JoinSplit | docs/protocol.md:109-117 | joining the lines of any stream gives the stream back |
| Lines.SplitConcat | docs/protocol.md:109-117 | cutting a stream anywhere, the unfinished line of the first part opens the second |
| WatchFraming.FrameDecoder.Push | watch/src/protocol/watch_protocol.c:213-238 | one receive on the in-place buffer is the byte-at-a-time specification |
| WatchFraming.ChunkIndependence | watch/src/protocol/watch_protocol.c:213-238 | any fragmentation gives the same buffer, handler state and outcome, errors included, for any handler |
| WatchFraming.FeedIsDeliver | watch/src/protocol/watch_protocol.c:213-238 | the decoder does what the framing rules say of whole lines, up to the first error |
| WatchFraming.WatchRecovers | watch/src/protocol/watch_protocol.c:213-238 | on a clean stream, exactly the nonempty lines without one carriage return, in order |
| HostFraming.FrameDecoder.Push | host/src/protocol.rs:170-186 | one push drains complete lines from the buffer as specified |
| HostFraming.DrainSpec | host/src/protocol.rs:170-186 | a push succeeds exactly when every complete line decodes and the rest is not too long, and returns their frames |
| HostFraming.ChunksSucceed | host/src/protocol.rs:170-186 | lines that fit with their carriage return are recovered under every fragmentation |
| HostFraming.EveryCutSucceedsIff | host/src/protocol.rs:179-184 | every fragmentation succeeds if and only if all frames decode and all lines fit with their carriage return |
| HostFraming.FirstErrorShows | host/src/protocol.rs:170-186 | an error in the first frame, other than one that depends on the reads, is what every fragmentation reports |
| HostFraming.HostChunkIndependence | host/src/protocol.rs:170-186 | any two fragmentations give the same messages and error if and only if the stream is clean or its first frame has such an error |
| HostFraming.BadFrameDropsEarlierMessages | host/src/protocol.rs:179 | a bad frame discards a good one decoded in the same push |
| FramingRoundTrip.SendBytes | watch/src/transport/transport.c:40-51 | partial sends put a prefix of the frame on the wire, all of it exactly on success |
| FramingRoundTrip.EncodedLines | host/src/protocol.rs:153-162 | an encoded sequence of bodies splits back into those bodies |
| FramingRoundTrip.RoundTrip | host/src/protocol.rs:153-186 | both decoders recover any encoded sequence exactly, in any two fragmentations |
| FramingRoundTrip.DecodersAgree | host/src/protocol.rs:170-186 | on streams whose lines fit and decode, the two decoders deliver the same frames |
| FramingRoundTrip.WatchAcceptsIff | watch/src/protocol/watch_protocol.c:213-238 | the watch takes a stream without an error exactly when the host does under every fragmentation |
| FramingRoundTrip.LargestFrameWithCr | host/src/protocol.rs:139-145 | a frame of 16384 bytes ended by CRLF is taken by the host in one read and refused by the watch |
| Fragmentation.FragmentationInvisible | watch/src/transport/transport.c:140-159 | two fragmentations of the same bytes leave the watch and its output the same, with a clock reading and a send result of its own for each frame |
| Fragmentation.ReceiveIsRun | watch/src/transport/transport.c:114-159 | receiving any bytes is the run of the events in their lines, so what holds of runs holds of received bytes |
| WatchModel.WatchState.constructor | watch/src/state/watch_state.c:9-25 | the initial state |
| WatchModel.WatchState.ResetHost | watch/src/state/watch_state.c:27-39 | resets the host-owned fields and nothing else |
| WatchModel.WatchState.NotificationNext | watch/src/state/watch_state.c:41-48 | advances the cursor, or reports the end |
| WatchModel.WatchState.NotificationPrevious | watch/src/state/watch_state.c:50-55 | moves the cursor back, or reports the start |
| WatchModel.CursorStaysStored | watch/src/state/watch_state.c:41-55 | the cursor stays on a stored notification, and the two moves undo each other |
| WatchParse.ItemRead | watch/src/state/watch_sync.c:75-107 | an item is an object whose id, title and body are texts or absent; its title shows with 47 characters at most, its body with 95 |
| WatchParse.ListValue | watch/src/state/watch_sync.c:89-111 | saturating total, the first four entries, blanks after them, cursor at the start |
| WatchParse.ParseNotifications | watch/src/state/watch_sync.c:72-112 | the loop accepts exactly arrays of well-typed items and builds that list, each title and body from its own member |
| WatchParse.MutationReadIff | watch/src/state/watch_sync.c:180-224 | a mutation is read exactly when its revision is in range, its path one of the six and its value fits it; revision and change are those of the payload |
| WatchParse.SnapshotReadIff | watch/src/state/watch_sync.c:114-178 | a snapshot is read exactly when its revision and every section present are well typed and fit; what is absent is as after a reset |
| WatchParse.ParsedDataOk | watch/src/state/watch_sync.c:146-251 | what is parsed fits its fields, and applying it keeps the host data well formed |
| WatchSync.ContentsSize | watch/src/state/watch_sync.c:253-265 | the slots are full exactly when sixteen distinct revisions are buffered |
| WatchSync.ContentsStore | watch/src/state/watch_sync.c:258-263 | which free slot is filled does not matter |
| WatchSync.FoundSpec | watch/src/state/watch_sync.c:271-282 | a scan finds the next revision if it is buffered, and a gap if something lies beyond it |
| WatchSync.WatchSync.Connect | watch/src/state/watch_sync.c:299-302 | connecting only starts syncing |
| WatchSync.WatchSync.Disconnect | watch/src/state/watch_sync.c:304-308 | disconnecting empties the buffer and keeps the revision |
| WatchSync.WatchSync.BufferMutation | watch/src/state/watch_sync.c:253-265 | the first mutation of a revision is kept; a seventeenth revision is refused |
| WatchSync.WatchSync.Scan | watch/src/state/watch_sync.c:270-282 | drops what is overtaken and finds the next entry, despite wrap-around of `revision + 1` |
| WatchSync.WatchSync.TakeNext | watch/src/state/watch_sync.c:287-290 | applies the next mutation and removes exactly its entry |
| WatchSync.WatchSync.ReplayBuffer | watch/src/state/watch_sync.c:267-292 | the rescanning loop is ordered replay of the map of buffered revisions, wherever they lie; every round that continues leaves fewer occupied slots |
| WatchSync.WatchSync.InstallSnapshot | watch/src/state/watch_sync.c:323-332 | installs, replays, and reports a snapshot that leaves a gap |
| WatchSync.WatchSync.SequenceMutation | watch/src/state/watch_sync.c:336-348 | stale, buffered, gap and apply branches |
| WatchSync.WatchSync.Handle | watch/src/state/watch_sync.c:320-349 | the whole entry point, errors included, is the replication rule on the abstract replica |
| WatchSync.ApplyMutation | watch/src/state/watch_sync.c:226-251 | sets the one field of the path, cutting texts to capacity |
| ReplicationLaws.HandleKeepsInvariant | watch/src/state/watch_sync.c:320-349 | buffered revisions stay ahead, none outside syncing, errors change nothing, a gap never finds a full buffer |
| ReplicationLaws.InOrderShows | watch/src/state/watch_sync.c:226-251 | a well-formed mutation whose turn it is shows its value, texts cut to 31 and 63 characters, and changes nothing else |
| ReplicationLaws.SnapshotShows | watch/src/state/watch_state.c:27-39 | a snapshot shows its state, resets the rest of what the host owns, the pending mark of an action included, and leaves what the watch owns |
| ReplicationLaws.ReplayIsMaximalRun | watch/src/state/watch_sync.c:267-292 | replay applies exactly the maximal contiguous run, in increasing order |
| ReplicationLaws.ReplayIgnoresOvertaken | watch/src/state/watch_sync.c:275-276 | replay depends only on entries above the snapshot's revision |
| ReplicationLaws.DeliverAllMerges | watch/src/state/watch_sync.c:338-341 | deliveries while syncing only merge into the buffer, and none is refused while there is room |
| ReplicationLaws.DeliveryOrderIrrelevant | watch/src/state/watch_sync.c:253-292 | any order and duplication of the same mutations, then the same snapshot, ends the same |
| ReplicationLaws.ReplayOfLog | watch/src/state/watch_sync.c:267-292 | replaying log entries over a prefix of the log gives a longer prefix |
| Paths.ReplacePath | host/src/state.rs:180-196 | the cursor loop writes the path, or fails and leaves the tree as it was |
| Paths.ReplaceThenGet | host/src/state.rs:180-196 | reading back a written path gives the value |
| Paths.GetThenReplace | host/src/state.rs:180-196 | writing back what is there changes nothing |
| Paths.ReplaceTwice | host/src/state.rs:180-196 | the second write wins |
| Paths.ReplaceElsewhere | host/src/state.rs:180-196 | a write leaves every path apart from it as it was |
| Paths.ApartIffNoPrefix | host/src/state.rs:180-196 | two paths are apart exactly when neither is a prefix of the other |
| Paths.ReplaceFailsIff | host/src/state.rs:184-186 | a write fails exactly when a proper prefix resolves to a non-object |
| Paths.InsertThenRemove | host/src/state.rs:198-242 | removing what was inserted restores the whole state |
| HostStore.StateStore.ApplyHere | host/src/state.rs:131-149 | updates the tree in place or leaves it alone |
| HostStore.StateStore.ApplyMessage | host/src/state.rs:73-96 | buffered, stale, gap and apply branches of the store |
| HostStore.StateStore.ReplayHere | host/src/state.rs:118-122 | the replay loop, with its failures |
| HostStore.StateStore.Install | host/src/state.rs:98-129 | snapshot installation, with what a failure leaves behind |
| HostStore.ApplyErrorsAreAtomic | host/src/state.rs:73-96 | an error of `apply` leaves the store unchanged |
| HostStore.AppliesIff | host/src/state.rs:131-242 | a mutation applies exactly when it passes the checks on its path, its value, its index and what is at its path |
| HostStore.AppliedIff | host/src/state.rs:73-96 | a message is applied exactly when it is its turn and it passes its checks; then the tree and the revision change |
| HostStore.WriteEffect | host/src/state.rs:138-146 | a set or patch that applies leaves its value at its path and every path apart from it alone |
| HostStore.ListEditEffect | host/src/state.rs:198-242 | an insert, update or remove that applies does so at its index, keeps and moves the other items accordingly, and leaves every path apart alone |
| HostStore.ValidatesIff | host/src/protocol.rs:74-101 | the kinds of mutations, and the members each must have |
| HostStore.HostPathIff | host/src/state.rs:164-178 | the six roots of the host with every path below them, and for a patch the five leaves |
| HostStore.ActsIff | host/src/state.rs:73-96 | a message changes the store exactly when it is well formed, new, not buffered yet, and passes its checks if it is its turn |
| HostStore.ReplaySpec | host/src/state.rs:118-122 | replay writes the messages of a run in order and stops at a gap, at a refused message or at 2^64 - 1, with what it leaves each time |
| HostStore.InstallOkIff | host/src/state.rs:98-129 | installation succeeds exactly when the run after the snapshot ends before 2^64 - 1 and each message of it passes its checks on the tree the ones before it leave |
| HostStore.FailedInstallIsNotAtomic | host/src/state.rs:114-122 | every installation that meets a refused message leaves the run before it written over the snapshot, the message gone and syncing as it was |
| HostStore.OverflowLeaves | host/src/state.rs:118-122 | an installation whose run applies up to 2^64 - 1 fails exactly then, with the whole run written and taken from the buffer |
| HostStore.ForeignPathBlocksSnapshot | host/src/state.rs:79-84 | while syncing, any mutation of a path that is not the host's is buffered unchecked, and no snapshot whose run reaches it installs |
| Simulation.SnapshotView | watch/src/state/watch_sync.c:146-178 | a snapshot the watch accepts is well typed, and the watch reads its view |
| Simulation.ApplyAgrees | host/src/state.rs:131-149 | a mutation the watch accepts changes the host crate's tree as it changes the watch |
| Simulation.MutationSimulates | host/src/state.rs:73-96 | both sides answer a mutation alike and stay related, unless the watch runs out of slots |
| Simulation.ReplaySimulates | host/src/state.rs:118-122 | both sides replay the same run to the same view |
| Simulation.SnapshotSimulates | host/src/state.rs:98-129 | both sides install a snapshot alike, whatever their data and revisions were, unless revisions run out |
| Simulation.ErrorIff | watch/src/state/watch_sync.c:320-349 | the watch reports an error exactly on a snapshot or mutation it cannot read, or has no slot for, and then changes nothing |
| Simulation.StaysRelatedIff | host/src/state.rs:73-96 | a message that is not a snapshot keeps the two sides related exactly when the watch supports it and has room, or the store has nothing to do with it |
| Simulation.ListEditLeavesGap | watch/src/state/watch_sync.c:333-335 | a list edit the store applies is passed over by the watch, which asks for a snapshot at the next mutation |
| Simulation.OtherPathIsError | watch/src/state/watch_sync.c:226-251 | a mutation of a host path the watch does not show is an error there although the store applies it |
| Simulation.StreamsSimulateIff | host/src/state.rs:73-129 | on every stream, up to a message the watch cannot take or the last revision, the two stay related all along exactly when no list edit is one for the store |
| WatchActions.StatusFoundIff | watch/src/actions/watch_actions.c:6-22 | a status of less than 20 characters is found exactly when its quoted member is part of the text, a longer one never |
| WatchActions.PayloadContainsStatus | watch/src/actions/watch_actions.c:6-22 | the search loop finds it exactly then |
| WatchActions.WatchActions.BeginMusic | watch/src/actions/watch_actions.c:36-48 | flips the flag and remembers the old value, one action at a time |
| WatchActions.WatchActions.BindMessage | watch/src/actions/watch_actions.c:50-53 | records the id of the sent message |
| WatchActions.WatchActions.FailPending | watch/src/actions/watch_actions.c:55-63 | restores the remembered value |
| WatchActions.WatchActions.Reconcile | watch/src/actions/watch_actions.c:65-79 | a reply to the pending message confirms or rolls back; others are ignored |
| WatchActions.WatchActions.Poll | watch/src/actions/watch_actions.c:81-89 | rolls back after the timeout, with the wrapping clock difference of the source |
| WatchActions.TimeoutExact | watch/src/actions/watch_actions.c:84 | with a clock that does not run backwards, exactly 5000 ms |
| WatchActions.BackwardsClockTimesOut | watch/src/actions/watch_actions.c:84 | with one that does, the action times out at once unless it went back by nearly 2^64 |
| WatchActions.SearchExactOnHostResults | watch/src/actions/watch_actions.c:6-22 | on the host's serialized results the text search finds `ok` exactly when the status is `ok` |
| WatchCache.WatchCache.CaptureSynchronized | watch/src/cache/watch_cache.c:110-128 | captures all host domains and the revision, and seals |
| WatchCache.WatchCache.CaptureLocal | watch/src/cache/watch_cache.c:130-138 | captures the screen and the cursor, and seals |
| WatchCache.WatchCache.MarkOffline | watch/src/cache/watch_cache.c:140-150 | marks every domain stale once something was captured |
| WatchCache.WatchCache.RestoreInto | watch/src/cache/watch_cache.c:64-108 | restores the captured domains of a valid record, nothing of an invalid one |
| WatchCache.HostDataAllOrNone | watch/src/cache/watch_cache.c:64-150 | the host domains are captured together, so they come back all or none |
| WatchCache.CaptureApplicationValidIff | watch/src/cache/watch_cache.c:130-138 | the captured record is valid exactly when the cursor fits the cached list |
| WatchCache.OperationsKeepValid | watch/src/cache/watch_cache.c:110-150 | the other operations keep records valid |
| WatchCache.ValidIff | watch/src/cache/watch_cache.c:45-57 | the tests a record has to pass, with their numbers |
| WatchCache.CaptureWrites | watch/src/cache/watch_cache.c:110-128 | a capture writes every domain as it is shown, current and under its time, and the revision |
| WatchCache.MarkedRestoresSame | watch/src/cache/watch_cache.c:140-150 | marking a record stale changes nothing of what a power-on restores from it |
| WatchCache.MarkedKeeps | watch/src/cache/watch_cache.c:140-150 | marking keeps all data and times; only flags and the time of the link change |
| WatchCache.RestoredTime | watch/src/cache/watch_cache.c:64-108 | restored data has the latest time at which any restored domain was captured |
| WatchCache.CaptureRestoreRoundTrip | watch/src/cache/watch_cache.c:64-138 | capture then restore gives back all host data and the screen |
| WatchCache.LoadsIffValid | watch/src/cache/watch_cache.c:45-57 | on bytes that hold a record, the check on the bytes is the check on the record |
| WatchCache.CorruptedImageRefused | watch/src/cache/watch_cache.c:45-67 | the bytes of a valid record with any one changed, padding included, are refused whatever they read as |
| WatchRuntime.Runtime.constructor | watch/src/runtime/watch_runtime.c:171-186 | power-on with a stored record, a refused one or none |
| WatchRuntime.Runtime.TransportRequestSync | watch/src/transport/transport.c:166-177 | takes an id when connected, and reports a failed send |
| WatchRuntime.Runtime.HandleReply | watch/src/runtime/watch_runtime.c:50-61 | reconciles and caches |
| WatchRuntime.Runtime.HandleState | watch/src/runtime/watch_runtime.c:62-84 | rejects, asks for a snapshot, or shows and caches |
| WatchRuntime.Runtime.HandleProtocolMessage | watch/src/runtime/watch_runtime.c:47-85 | the message handler is the transition of the model |
| WatchRuntime.Runtime.TransportDisconnect | watch/src/transport/transport.c:27-38 | closes once, then rolls back, marks stale and forgets the buffer |
| WatchRuntime.Runtime.TransportConnect | watch/src/transport/transport.c:84-112 | reports the connection, sends hello and a snapshot request, closes if either fails |
| WatchRuntime.Runtime.TransportDeliver | watch/src/transport/transport.c:114-122 | answers commands, passes other messages on, closes on refusal |
| WatchRuntime.Runtime.Activate | watch/src/runtime/watch_runtime.c:128-145 | tap: begin, send, bind or roll back, cache |
| WatchRuntime.Runtime.MoveItem | watch/src/runtime/watch_runtime.c:118-127 | moves the cursor on the notification screen and caches it |
| WatchRuntime.Runtime.Dispatch | watch/src/runtime/watch_runtime.c:106-213 | every event handler implements its transition |
| WatchRuntime.Runtime.Serve | watch/src/runtime/watch_runtime.c:199-213 | the polling loop implements runs of the model, and keeps the invariant |
| RuntimeInvariants.StepInv | watch/src/runtime/watch_runtime.c:47-157 | every event keeps: offline exactly when closed, pending only while open, flag only while pending, online not stale |
| RuntimeInvariants.RunInv | watch/src/runtime/watch_runtime.c:47-157 | the same over every run |
| RuntimeInvariants.ErrorClosesOnly | watch/src/transport/transport.c:114-122 | a message synchronization cannot take does what the peer closing does, and nothing else |
| RuntimeInvariants.OnlineOnlyAfterSnapshot | watch/src/runtime/watch_runtime.c:47-104 | in every run, whatever is received: online only with a snapshot of this connection, and not stale |
| EventEffects.ConnectionSends | watch/src/transport/transport.c:53-65 | a connection sends hello and a request for a snapshot from revision zero, and shows the watch connecting |
| EventEffects.FailedConnectionSends | watch/src/transport/transport.c:84-112 | if either does not go out, the connection is down again |
| EventEffects.LossShows | watch/src/runtime/watch_runtime.c:93-102 | a lost connection shows the watch offline, takes back a pending action and marks captured data stale |
| EventEffects.CommandAnswered | watch/src/transport/transport.c:74-122 | a command is answered as unsupported, to that command, and does nothing else |
| EventEffects.ReplyShows | watch/src/actions/watch_actions.c:65-79 | the reply to the pending action confirms it or takes it back, with the feedback of each; any other does nothing |
| EventEffects.ChangeShows | watch/src/runtime/watch_runtime.c:73-84 | a change is shown as current, under the time it came, and cached with its revision |
| EventEffects.GapAsks | watch/src/runtime/watch_runtime.c:67-71 | a gap makes the watch ask for a snapshot from the revision it has, and nothing is cached |
| EventEffects.QuietMessage | watch/src/runtime/watch_runtime.c:62-84 | what is ignored or buffered shows and sends nothing |
| EventEffects.NavigateShows | watch/src/runtime/watch_runtime.c:106-157 | navigating shows the screen and remembers it with the cursor |
| EventEffects.NextItemShows | watch/src/runtime/watch_runtime.c:118-127 | on the list the cursor moves on if it can, shown and cached; elsewhere nothing happens |
| EventEffects.PreviousItemShows | watch/src/runtime/watch_runtime.c:118-127 | the same the other way |
| EventEffects.PollShows | watch/src/actions/watch_actions.c:81-89 | a poll takes a pending action back from 5000 ms on, and otherwise does nothing |
| EventEffects.PowerOnShows | watch/src/runtime/watch_runtime.c:167-186 | nothing of replication or of an action survives power-off; without a record the initial state is shown |
| RuntimeRuns.ActionsConserved | watch/src/actions/watch_actions.c:36-89 | begun equals confirmed plus rolled back plus pending, in every run |
| RuntimeRuns.LinksAlternate | watch/src/transport/transport.c:27-112 | connected and disconnected events strictly alternate |
| RuntimeRuns.GoesDownIff | watch/src/transport/transport.c:84-122 | a lost connection is reported exactly by a close, a bad frame, a refused message or a connection whose first frames do not go out |
| RuntimeRuns.IdsConsecutive | watch/src/transport/transport.c:20-192 | message ids are consecutive across connections and failed sends |
| RuntimeRuns.RevisionNonDecreasingIff | watch/src/state/watch_sync.c:328 | in every run the revision never goes back exactly when no snapshot of an earlier revision arrives |
| ActionRuns.PendingCarriesLastId | watch/src/runtime/watch_runtime.c:128-145 | a pending action carries the id of the last action sent |
| ActionRuns.ActionIdsIncrease | watch/src/transport/transport.c:179-192 | action ids increase until the counter wraps |
| ActionRuns.LateReplyIgnored | watch/src/actions/watch_actions.c:65-79 | a reply to an earlier action has no effect, the reply to the last one ends it |
| ActionRuns.PendingSurvives | watch/src/actions/watch_actions.c:36-89 | a pending action survives every run that does not report its end |
| ActionRuns.UnsentTapRestores | watch/src/runtime/watch_runtime.c:128-145 | a tap that is not sent leaves the flag as it was, shown and cached, and says so |
| ActionRuns.SentTapShows | watch/src/runtime/watch_runtime.c:128-145 | a tap whose frame goes out shows the other value as pending, asks the host for it and caches it |
| ActionRuns.TapThenRollback | watch/src/actions/watch_actions.c:55-89 | rejection, disconnect or timeout restores the value before the tap, over any run |
| ActionRuns.TapThenPoll | watch/src/actions/watch_actions.c:81-89 | a poll 5000 ms after the tap leaves nothing of it pending |
| ActionRuns.RollbackOverridesPatch | watch/src/actions/watch_actions.c:59 | however long after a patch, a rollback agrees with it exactly when it carried the old value |
| ActionRuns.AcceptedActionRoundTrip | host/src/server.rs:68-86 | the host's result and patch end the action and make its value authoritative and cached |
| CacheRuns.StepCacheOk | watch/src/runtime/watch_runtime.c:47-157 | every event but a snapshot with a gap keeps the record valid |
| CacheRuns.StepValidIff | watch/src/cache/watch_cache.c:130-138 | an event leaves a valid record valid exactly when the cursor it captures on its own, if any, points into the cached list |
| CacheRuns.ValidThroughoutIff | watch/src/runtime/watch_runtime.c:47-157 | the record would load all through a run exactly when every such cursor does |
| CacheRuns.RecordStaysValid | watch/src/runtime/watch_runtime.c:47-157 | runs without a snapshot that leaves a gap end with a record that loads and the cached list the one shown |
| CacheRuns.BootCacheOk | watch/src/runtime/watch_runtime.c:175-186 | power-on starts from a valid record, whatever the storage held |
| CacheRuns.VersionsStayEqual | watch/src/cache/watch_cache.c:64-150 | the host domains stay captured together through every run |
| CacheRuns.GapSnapshotBreaksRecord | watch/src/runtime/watch_runtime.c:67-71 | after such a snapshot, moving the cursor writes a record that power-on refuses |
| CacheRuns.OfflineDataIsStale | watch/src/runtime/watch_runtime.c:93-102 | once anything was applied, data shown while down is stale |
| CachedFlags.OfflineTapClearsCachedFlags | watch/src/runtime/watch_runtime.c:138-143 | an offline tap clears the cached stale flags, not the shown one |
| CachedFlags.CachedFlagsIff | watch/src/runtime/watch_runtime.c:93-143 | in every run, while down, the cached domains are all marked stale exactly when no tap came since the connection last went down with anything cached, or since the start if the mark was there |
| CachedFlags.CachedFlagsFromPowerOn | watch/src/runtime/watch_runtime.c:175-186 | the same from power-on, where the mark is that of the stored record |
| CachedFlags.PowerOnFlags | watch/src/cache/watch_cache.c:64-108 | power-on shows restored data as stale and leaves the cached flags as they were saved |
| CachedFlags.BootRecordedIff | watch/src/cache/watch_cache.c:64-108 | at power-on the record holds the flag shown unless a stored one has a flag for music never captured |
| CachedFlags.LosesActionIff | watch/src/transport/transport.c:27-122 | an action is rolled back without a capture exactly when a pending one meets a lost connection or a timed-out poll |
| CachedFlags.StepRecordedIff | watch/src/runtime/watch_runtime.c:47-157 | an event puts the cached music flag out of step exactly when it loses an action whose old flag differs, or installs a snapshot with a gap that ends in another flag |
| CachedFlags.RecordFollowsIff | watch/src/runtime/watch_runtime.c:47-157 | the cached music flag is the shown one throughout a run exactly when no such event occurs |
| CachedFlags.RollbackLeavesOptimisticRecord | watch/src/runtime/watch_runtime.c:93-213 | after a timeout or disconnection at the end of any wait, the record keeps the optimistic value |
| SavedData.PowerOnRestores | watch/src/cache/watch_cache.c:64-150 | after any run, power-on brings back the host data, cursor and screen last captured, if the record loads |
| SavedData.BootKeeps | watch/src/runtime/watch_runtime.c:175-186 | power-on starts from what the stored record keeps, or from nothing |
| SavedData.FirstRunRestores | watch/src/runtime/watch_runtime.c:175-186 | the same for every run from a first power-on |
| SavedData.CapturedDataSurvives | watch/src/runtime/watch_runtime.c:47-157 | what was shown when it was last captured comes back after any run that captures nothing more, lost connections included |
| LogSafety.SnapshotInStep | watch/src/state/watch_sync.c:323-332 | a snapshot puts the host data at a prefix of the log, whatever was shown before |
| LogSafety.StepSafe | watch/src/runtime/watch_runtime.c:47-157 | every event keeps the host data in step with the log of the connection |
| LogSafety.RunsAreSafe | watch/src/runtime/watch_runtime.c:47-157 | the same over every run and every sequence of hosts |
| LogSafety.HostDataIsLogPrefix | watch/src/state/watch_sync.c:226-349 | after a snapshot the host data is the fold of the first `revision` log entries, before it what it was at connect, up to what the user has touched since |
| LogSafety.RollbackInStepIff | watch/src/actions/watch_actions.c:55-63 | after a rollback the data is the log prefix exactly when the log has the flag of before the tap |
| HostServer.HostConnection.AnswerSyncRequest | host/src/server.rs:54-67 | first patch, snapshot, remaining patches, under consecutive ids |
| HostServer.HostConnection.AnswerAction | host/src/server.rs:68-86 | a result, then the patch at the next revision |
| Reconnection.FromZero | host/src/server.rs:54-67 | from revision zero one reply suffices, however long the log |
| Reconnection.SecondReplyCompletes | host/src/server.rs:54-67 | from any other revision a log of 2 to 16 entries is completed by a second request |
| Reconnection.SingleEntryLost | host/src/server.rs:54-67 | from any other revision a log of one entry is lost |
| Reconnection.LongLogFails | watch/src/state/watch_sync.c:258-264 | from any other revision a log of 17 entries or more overflows the buffer |
| Reconnection.ReconnectStabilizesIff | watch/src/state/watch_sync.c:299-349 | one connection reaches the end of the log exactly in the first two cases |
| Reconnection.SecondConnectionSuffices | watch/src/state/watch_sync.c:299-349 | a connection that does not is followed by one that does |
| ReconnectionRuns.ConnectionIsSession | watch/src/transport/transport.c:84-159 | a connection of the whole watch mirrors the closed loop, with as many requests |
| ReconnectionRuns.WatchReconnectsIff | host/src/server.rs:54-67 | a watch that connects and receives the replies has all of the log exactly in those cases |
| HostServer.HostConnection.AnswerRefused | host/src/server.rs:68-73 | a refused action takes one id and no revision |
| HostServer.HostConnection.HandleRequests | host/src/server.rs:44-86 | over any requests, refused actions included, the patches for accepted ones carry the revisions of the model and the values asked for |
| HostServer.ActionRevisionsIncreaseIff | host/src/server.rs:54-86 | from every count, actions get increasing revisions exactly when no snapshot request comes between two of them, but for the first, which may while the count is within the log |
| HostServer.FreshConnectionIncreasesIff | host/src/server.rs:44-86 | the same for a connection that counts from zero |

## Left out

- JSON text: messages are trees after parsing. Strings hold the characters between the quotes, so a text with an escape is one with a backslash, which the watch refuses where the source does; duplicate members cannot occur; numbers are values, so a zero written with a minus sign is not refused where the unsigned parsers refuse it.
- Utf8.ValidUtf8: bit masks and shifts are written as division, remainder and multiplication.
- WatchModel.WatchState.constructor: the fields a host owns are one nested value.
- Paths.ReplacePath: the mutable cursor is a path prefix into one tree, and list edits replace the list at its path.
- HostStore.StateStore.Install: `revision + 1` at 2^64 - 1 is an error, as in a checked build; a wrapping build carries on as the watch does.
- WatchCache.WatchCache.CaptureSynchronized: the byte layout of the record is a parameter, so padding is not modelled; the checksum is FNV-1a of whatever bytes the layout gives.
- WatchRuntime.Runtime.Dispatch: one clock reading per event, and the navigation stack only as the screen it ends on.
- HostServer.HostConnection.HandleRequests: the host's counters stay below 2^64; what a checked build does beyond that is not modelled.
- Envelope checks of the two decoders beyond the fields used here; they differ on a null `reply_to` and on malformed timestamps.
- Sockets, sleeps, latency, session ids, logging and the pacing of reconnection: connect, receive, close and send results are event parameters.
- Renderer, animation, input devices, performance sampling, app registry, gesture classification and platform probing.
- The cache file: loading yields any valid record or none.
- The recovery tool, scripts and board files.
