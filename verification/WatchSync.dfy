/** The watch side of state replication: sixteen unsorted slots, rescanned in every replay round. */
module WatchSync {
  import opened Integers
  import opened WatchModel
  import opened Wire
  import opened WatchParse
  import opened Replication

  datatype Slot = Slot(occupied: bool, revision: U64, change: Change)

  const EMPTY_SLOT := Slot(false, 0, Temperature(0))

  predicate Distinct(slots: seq<Slot>) {
    forall i, j :: 0 <= i < j < |slots| && slots[i].occupied && slots[j].occupied ==>
        slots[i].revision != slots[j].revision
  }

  /** The buffer as a map; the order of the slots plays no part in it. */
  function Contents(slots: seq<Slot>): map<U64, Change> {
    if slots == [] then map[]
    else
      var n := |slots| - 1;
      var m := Contents(slots[..n]);
      if slots[n].occupied then m[slots[n].revision := slots[n].change] else m
  }

  /** A slot holds nothing at or below `revision`. */
  function Dropped(s: Slot, revision: U64): Slot {
    if s.occupied && s.revision <= revision then s.(occupied := false) else s
  }

  lemma {:induction false} SlotInContents(slots: seq<Slot>, i: nat)
    requires Distinct(slots) && i < |slots| && slots[i].occupied
    ensures slots[i].revision in Contents(slots) && Contents(slots)[slots[i].revision] == slots[i].change
  {
    var n := |slots| - 1;
    if i < n {
      SlotInContents(slots[..n], i);
    }
  }

  lemma {:induction false} FindSlot(slots: seq<Slot>, r: U64) returns (i: nat)
    requires r in Contents(slots)
    ensures i < |slots| && slots[i].occupied && slots[i].revision == r
  {
    var n := |slots| - 1;
    if slots[n].occupied && slots[n].revision == r {
      i := n;
    } else {
      i := FindSlot(slots[..n], r);
    }
  }

  lemma {:induction false} ContentsEmpty(slots: seq<Slot>)
    requires forall i :: 0 <= i < |slots| ==> !slots[i].occupied
    ensures Contents(slots) == map[]
  {
    if slots == [] {
    } else {
      ContentsEmpty(slots[..|slots| - 1]);
    }
  }

  lemma LastIsNew(slots: seq<Slot>)
    requires Distinct(slots) && slots != [] && slots[|slots| - 1].occupied
    ensures slots[|slots| - 1].revision !in Contents(slots[..|slots| - 1])
  {
    var n := |slots| - 1;
    if slots[n].revision in Contents(slots[..n]) {
      var i := FindSlot(slots[..n], slots[n].revision);
    }
  }

  /** The map has one entry per occupied slot, so it is full exactly when every slot is taken. */
  lemma {:induction false} ContentsSize(slots: seq<Slot>)
    requires Distinct(slots)
    ensures |Contents(slots)| <= |slots|
    ensures |Contents(slots)| == |slots| <==> forall i :: 0 <= i < |slots| ==> slots[i].occupied
  {
    if slots == [] {
    } else {
      var n := |slots| - 1;
      ContentsSize(slots[..n]);
      if slots[n].occupied {
        LastIsNew(slots);
        MapInsertSize(Contents(slots[..n]), slots[n].revision, slots[n].change);
      }
    }
  }

  lemma MapInsertSize(m: map<U64, Change>, r: U64, c: Change)
    requires r !in m
    ensures |m[r := c]| == |m| + 1
  {
    assert m[r := c].Keys == m.Keys + {r};
  }

  /** Filling a free slot adds its entry; which free slot it is does not matter. */
  lemma {:induction false} ContentsStore(slots: seq<Slot>, i: nat, s: Slot)
    requires i < |slots| && !slots[i].occupied && s.occupied
    requires forall j :: 0 <= j < |slots| && slots[j].occupied ==> slots[j].revision != s.revision
    ensures Contents(slots[i := s]) == Contents(slots)[s.revision := s.change]
  {
    var n := |slots| - 1;
    if i < n {
      assert slots[i := s][..n] == slots[..n][i := s];
      ContentsStore(slots[..n], i, s);
    } else {
      assert slots[i := s][..n] == slots[..n];
    }
  }

  /** Emptying the overtaken slots restricts the map. */
  lemma {:induction false} ContentsDropped(slots: seq<Slot>, after: seq<Slot>, revision: U64)
    requires |after| == |slots|
    requires forall i :: 0 <= i < |slots| ==> after[i] == Dropped(slots[i], revision)
    ensures Contents(after) == Beyond(Contents(slots), revision)
  {
    if slots == [] {
    } else {
      var n := |slots| - 1;
      ContentsDropped(slots[..n], after[..n], revision);
    }
  }

  /** Emptying one slot removes its entry. */
  lemma {:induction false} ContentsTake(slots: seq<Slot>, i: nat)
    requires Distinct(slots) && i < |slots| && slots[i].occupied
    ensures Contents(slots[i := slots[i].(occupied := false)]) == Contents(slots) - {slots[i].revision}
  {
    var n := |slots| - 1;
    var s := slots[i].(occupied := false);
    if i < n {
      assert slots[i := s][..n] == slots[..n][i := s];
      ContentsTake(slots[..n], i);
    } else {
      assert slots[i := s][..n] == slots[..n];
      LastIsNew(slots);
    }
  }

  /** What the scan finds in these slots: where the next revision lies, and whether one beyond it exists. */
  function Found(slots: seq<Slot>, revision: U64): (Option<nat>, bool) {
    if slots == [] then (None, false)
    else
      var n := |slots| - 1;
      var (next, hasGap) := Found(slots[..n], revision);
      if !slots[n].occupied || slots[n].revision <= revision then (next, hasGap)
      else if slots[n].revision == revision + 1 then (Some(n), hasGap)
      else (next, true)
  }

  /** Where a replay stands: the revision reached, the data there, and the mutations held. */
  datatype Progress = Progress(revision: U64, host: HostData, buffer: map<U64, Change>)

  ghost predicate HasAbove(m: map<U64, Change>, revision: nat) {
    exists r :: r in m && r > revision
  }

  lemma HasAboveInsert(m: map<U64, Change>, r: U64, c: Change, revision: nat)
    ensures HasAbove(m[r := c], revision) <==> HasAbove(m, revision) || r > revision
  {
    if r > revision {
      assert r in m[r := c];
    }
    if HasAbove(m, revision) {
      var k :| k in m && k > revision;
      assert k in m[r := c];
    }
  }

  lemma {:induction false} FoundSpec(slots: seq<Slot>, revision: U64)
    ensures var next := Found(slots, revision).0;
            && (next.Some? <==> revision < U64_MAX && revision + 1 in Contents(slots))
            && (next.Some? ==> next.value < |slots| && slots[next.value].occupied)
            && (next.Some? ==> slots[next.value].revision == revision + 1)
    ensures Found(slots, revision).1 <==> HasAbove(Contents(slots), revision + 1)
  {
    if slots == [] {
    } else {
      var n := |slots| - 1;
      FoundSpec(slots[..n], revision);
      HasAboveInsert(Contents(slots[..n]), slots[n].revision, slots[n].change, revision + 1);
    }
  }

  /** Without a next entry, what lies beyond the revision lies beyond a gap. */
  lemma GapIsRest(m: map<U64, Change>, revision: U64)
    requires !(revision < U64_MAX && revision + 1 in m)
    ensures HasAbove(m, revision + 1) <==> Beyond(m, revision) != map[]
  {
    if HasAbove(m, revision + 1) {
      var k :| k in m && k > revision + 1;
      assert k in Beyond(m, revision);
    }
    if Beyond(m, revision) != map[] {
      var k :| k in Beyond(m, revision);
    }
  }

  lemma WithoutSize(m: map<U64, Change>, taken: U64)
    requires taken in m
    ensures |m - {taken}| < |m|
  {
    assert (m - {taken}).Keys == m.Keys - {taken};
  }

  /** What is left to replay is the same as when the loop began. */
  ghost predicate Replaying(start: Progress, now: Progress) {
    && RunEnd(now.revision, start.buffer) == RunEnd(start.revision, start.buffer)
    && RunHost(now.revision, now.host, start.buffer) == RunHost(start.revision, start.host, start.buffer)
    && Beyond(now.buffer, now.revision) == Beyond(start.buffer, now.revision)
  }

  lemma ReplayRound(start: Progress, now: Progress, next: Progress)
    requires Replaying(start, now) && now.revision < U64_MAX && next.revision == now.revision + 1
    requires next.revision in Beyond(now.buffer, now.revision)
    requires next.buffer == Beyond(now.buffer, now.revision) - {next.revision}
    requires next.host == Applied(now.host, Beyond(now.buffer, now.revision)[next.revision])
    ensures Replaying(start, next)
  {
    assert next.revision in Beyond(start.buffer, now.revision);
    RunStep(now.revision, now.host, start.buffer);
  }

  lemma ReplayDone(start: Progress, now: Progress)
    requires Replaying(start, now)
    requires !(now.revision < U64_MAX && now.revision + 1 in Beyond(now.buffer, now.revision))
    ensures now.revision == RunEnd(start.revision, start.buffer)
    ensures now.host == RunHost(start.revision, start.host, start.buffer)
    ensures Beyond(now.buffer, now.revision) == Beyond(start.buffer, now.revision)
  {
    assert now.revision + 1 in start.buffer ==> now.revision + 1 in Beyond(start.buffer, now.revision);
  }

  class WatchSync {
    var revision: U64
    var syncing: bool
    const buffered: array<Slot>

    ghost predicate Valid()
      reads this, buffered
    {
      buffered.Length == BUFFER_CAPACITY && Distinct(buffered[..])
    }

    function View(): Sync
      requires Valid()
      reads this, buffered
    {
      Sync(revision, syncing, Contents(buffered[..]))
    }

    constructor ()
      ensures Valid() && fresh(buffered) && View() == FRESH
    {
      revision, syncing := 0, false;
      buffered := new Slot[BUFFER_CAPACITY](_ => EMPTY_SLOT);
      new;
      ContentsEmpty(buffered[..]);
    }

    method Connect()
      requires Valid()
      modifies this
      ensures Valid() && View() == Connected(old(View()))
    {
      syncing := true;
    }

    method Disconnect()
      requires Valid()
      modifies this, buffered
      ensures Valid() && View() == Disconnected(old(View()))
    {
      syncing := false;
      for i := 0 to buffered.Length
        invariant unchanged(`revision) && !syncing
        invariant forall j :: 0 <= j < i ==> !buffered[j].occupied
      {
        buffered[i] := EMPTY_SLOT;
      }
      ContentsEmpty(buffered[..]);
    }

    method BufferMutation(m: Mutation) returns (ok: bool)
      requires Valid()
      modifies buffered
      ensures Valid()
      ensures ok == AddToBuffer(old(View()).buffer, m).Some?
      ensures View().buffer == if ok then AddToBuffer(old(View()).buffer, m).value else old(View()).buffer
    {
      for i := 0 to buffered.Length
        invariant forall j :: 0 <= j < i && buffered[j].occupied ==> buffered[j].revision != m.revision
      {
        if buffered[i].occupied && buffered[i].revision == m.revision {
          SlotInContents(buffered[..], i);
          return true;
        }
      }
      ghost var slots := buffered[..];
      ContentsSize(slots);
      if m.revision in Contents(slots) {
        var i := FindSlot(slots, m.revision);
      }
      for i := 0 to buffered.Length
        invariant buffered[..] == slots
        invariant forall j :: 0 <= j < i ==> buffered[j].occupied
      {
        if !buffered[i].occupied {
          assert !slots[i].occupied;
          ContentsStore(slots, i, Slot(true, m.revision, m.change));
          buffered[i] := Slot(true, m.revision, m.change);
          assert buffered[..] == slots[i := Slot(true, m.revision, m.change)];
          return true;
        }
      }
      assert forall i :: 0 <= i < |slots| ==> slots[i] == buffered[i];
      return false;
    }

    /** One scan of the replay loop: empties overtaken slots and looks for the next one and for a gap. */
    method Scan() returns (next: Option<nat>, hasGap: bool)
      requires Valid()
      modifies buffered
      ensures Valid()
      ensures Contents(buffered[..]) == Beyond(old(Contents(buffered[..])), revision)
      ensures |Contents(buffered[..])| <= old(|Contents(buffered[..])|)
      ensures next.Some? <==> revision < U64_MAX && revision + 1 in Contents(buffered[..])
      ensures next.Some? ==> next.value < buffered.Length && buffered[next.value].occupied
      ensures next.Some? ==> buffered[next.value].revision == revision + 1
      ensures next.None? ==> hasGap == (Contents(buffered[..]) != map[])
    {
      ghost var slots := buffered[..];
      next, hasGap := None, false;
      for i := 0 to buffered.Length
        invariant forall j :: 0 <= j < i ==> buffered[j] == Dropped(slots[j], revision)
        invariant forall j :: i <= j < buffered.Length ==> buffered[j] == slots[j]
        invariant (next, hasGap) == Found(slots[..i], revision)
      {
        assert slots[..i + 1][..i] == slots[..i];
        if !buffered[i].occupied {
          continue;
        }
        if buffered[i].revision <= revision {
          buffered[i] := buffered[i].(occupied := false);
        } else if buffered[i].revision == WrapAdd64(revision, 1) {
          next := Some(i);
        } else {
          hasGap := true;
        }
      }
      assert slots[..buffered.Length] == slots;
      FoundSpec(slots, revision);
      ContentsDropped(slots, buffered[..], revision);
      BeyondSize(Contents(slots), revision);
      if next.None? {
        GapIsRest(Contents(slots), revision);
      }
    }

    /** The rest of a replay round: apply the next mutation and free its slot. */
    method TakeNext(state: WatchState, next: nat)
      requires Valid() && next < buffered.Length && buffered[next].occupied
      modifies this`revision, buffered, state`host
      ensures Valid() && revision == old(buffered[next].revision)
      ensures state.host == Applied(old(state.host), old(buffered[next].change))
      ensures Contents(buffered[..]) == old(Contents(buffered[..])) - {revision}
      ensures |Contents(buffered[..])| < old(|Contents(buffered[..])|)
    {
      ContentsTake(buffered[..], next);
      SlotInContents(buffered[..], next);
      WithoutSize(Contents(buffered[..]), buffered[next].revision);
      ghost var slots := buffered[..];
      ApplyMutation(state, buffered[next].change);
      revision := buffered[next].revision;
      buffered[next] := buffered[next].(occupied := false);
      assert buffered[..] == slots[next := slots[next].(occupied := false)];
    }

    /** The replay loop: rescans the slots in whatever order they lie until no next revision is found. */
    method ReplayBuffer(state: WatchState) returns (changed: bool)
      requires Valid()
      modifies this, buffered, state`host
      ensures Valid()
      ensures View() == Install(old(View()), old(revision))
      ensures state.host == RunHost(old(revision), old(state.host), old(Contents(buffered[..])))
      ensures changed == (revision != old(revision))
    {
      changed := false;
      ghost var start := Progress(revision, state.host, Contents(buffered[..]));
      while true
        invariant Valid() && revision >= start.revision
        invariant Replaying(start, Progress(revision, state.host, Contents(buffered[..])))
        invariant changed == (revision != start.revision)
        decreases |Contents(buffered[..])|
      {
        ghost var now := Progress(revision, state.host, Contents(buffered[..]));
        var next, hasGap := Scan();
        if next.None? {
          syncing := hasGap;
          ReplayDone(start, now);
          return;
        }
        SlotInContents(buffered[..], next.value);
        TakeNext(state, next.value);
        ReplayRound(start, now, Progress(revision, state.host, Contents(buffered[..])));
        changed := true;
      }
    }

    method InstallSnapshot(state: WatchState, snapshotRevision: U64, host: HostData) returns (result: SyncResult)
      requires Valid()
      modifies this, buffered, state
      ensures Valid()
      ensures Handled(result, View(), state.View()) ==
              HandleSnapshot(old(View()), old(state.View()), snapshotRevision, host)
    {
      var candidate := ResetHostOwned(state.View()).(host := host);
      state.Assign(candidate);
      revision := snapshotRevision;
      var _ := ReplayBuffer(state);
      return if syncing then NeedsSnapshot else Changed;
    }

    method SequenceMutation(state: WatchState, m: Mutation) returns (result: SyncResult)
      requires Valid()
      modifies this, buffered, state
      ensures Valid()
      ensures Handled(result, View(), state.View()) == HandleMutation(old(View()), old(state.View()), m)
    {
      if m.revision <= revision {
        return Unchanged;
      }
      if syncing {
        var ok := BufferMutation(m);
        return if ok then Buffered else Error;
      }
      if m.revision > WrapAdd64(revision, 1) {
        syncing := true;
        var ok := BufferMutation(m);
        return if ok then NeedsSnapshot else Error;
      }
      ApplyMutation(state, m.change);
      revision := m.revision;
      return Changed;
    }

    /** The entry point: the snapshot and mutation branches of the source, after parsing. */
    method Handle(state: WatchState, m: Message) returns (result: SyncResult)
      requires Valid()
      modifies this, buffered, state
      ensures Valid()
      ensures Handled(result, View(), state.View()) == Replication.Handle(old(View()), old(state.View()), m)
    {
      if m.kind == SyncResponse {
        var snapshot := ParseSnapshot(m.payload);
        if snapshot.None? {
          return Error;
        }
        result := InstallSnapshot(state, snapshot.value.0, snapshot.value.1);
        return;
      }
      if m.kind != StateSet && m.kind != StatePatch {
        return Unchanged;
      }
      var mutation := ParseMutation(m);
      if mutation.None? {
        return Error;
      }
      result := SequenceMutation(state, mutation.value);
    }
  }

  method ApplyMutation(state: WatchState, c: Change)
    modifies state`host
    ensures state.host == Applied(old(state.host), c)
  {
    match c
    case Temperature(t) =>
      state.host := state.host.(temperature := t);
    case Condition(text) =>
      state.host := state.host.(condition := Truncate(text, CONDITION_CAPACITY));
    case Title(text) =>
      state.host := state.host.(title := Truncate(text, MUSIC_TITLE_CAPACITY));
    case Playing(flag) =>
      state.host := state.host.(playing := flag);
    case Steps(n) =>
      state.host := state.host.(steps := n);
    case NotificationSet(list) =>
      state.host := state.host.(notifications := list);
  }
}
