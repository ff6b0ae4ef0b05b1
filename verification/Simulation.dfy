/** The watch's reducer and the host crate's reducer, run on the same messages. */
module Simulation {
  import opened Integers
  import opened WatchModel
  import opened Wire
  import opened WatchParse
  import opened Replication
  import opened ReplicationLaws
  import opened Paths
  import HostStore

  /** Members the watch reads have the types it reads; absent ones are fine. */
  predicate WeatherTyped(j: Json) {
    j.Obj? && OptionalText(j.members, "condition") &&
    ("temperature" in j.members ==> AsI16(j.members["temperature"]).Some?)
  }

  predicate MusicTyped(j: Json) {
    j.Obj? && OptionalText(j.members, "title") && ("playing" in j.members ==> j.members["playing"].Bool?)
  }

  predicate WellTyped(j: Json) {
    j.Obj? &&
    ("weather" in j.members ==> WeatherTyped(j.members["weather"])) &&
    ("music" in j.members ==> MusicTyped(j.members["music"])) &&
    ("steps" in j.members ==> AsU32(j.members["steps"]).Some?) &&
    ("notifications" in j.members ==> ListOk(j.members["notifications"]))
  }

  function TextOrDefault(members: map<string, Json>, name: string, capacity: nat, default: string): string
    requires OptionalText(members, name) && capacity > 0
  {
    if name in members then Truncate(members[name].text, capacity) else default
  }

  function Section(j: Json, name: string): (r: Json)
    requires j.Obj? && (name in j.members ==> j.members[name].Obj?)
    ensures r.Obj?
  {
    if name in j.members then j.members[name] else EMPTY_OBJECT
  }

  /** What the watch would show of the host crate's tree. */
  function ViewOf(j: Json): HostData
    requires WellTyped(j)
  {
    var weather, music := Section(j, "weather").members, Section(j, "music").members;
    HostData(
      if "steps" in j.members then j.members["steps"].value else RESET_HOST.steps,
      if "temperature" in weather then weather["temperature"].value else RESET_HOST.temperature,
      TextOrDefault(weather, "condition", CONDITION_CAPACITY, RESET_HOST.condition),
      TextOrDefault(music, "title", MUSIC_TITLE_CAPACITY, RESET_HOST.title),
      if "playing" in music then music["playing"].flag else RESET_HOST.playing,
      if "notifications" in j.members then ListValue(j.members["notifications"]) else NO_NOTIFICATIONS)
  }

  /** A snapshot the watch accepts is well typed, and the watch reads its view. */
  lemma SnapshotView(members: map<string, Json>)
    requires ParseHost(members).Some?
    ensures WellTyped(Obj(members)) && ViewOf(Obj(members)) == ParseHost(members).value
  {}

  /** A path of the watch passes the host crate's check, and splits into these segments. */
  predicate Registered(path: string, leaf: bool, segments: seq<string>) {
    HostStore.HostPath(path, leaf) && Split(path) == segments
  }

  /** A path of two segments under a root of the host. */
  lemma TwoSegments(
    first: string, second: string, path: string, hostRoots: set<string>, watchRoots: set<string>, leaves: set<string>)
    requires '.' !in first && '.' !in second && path == first + "." + second && first != "" && second != ""
    requires first in hostRoots && first !in watchRoots && path in leaves
    ensures HostStore.PathIn(path, true, hostRoots, watchRoots, leaves) && Split(path) == [first, second]
  {
    SplitAtDot(first, second);
    SplitNoDot(second);
  }

  lemma WeatherRoot()
    ensures "weather" in HostStore.HOST_ROOTS && "weather" !in HostStore.WATCH_ROOTS && '.' !in "weather"
  {}

  lemma MusicRoot()
    ensures "music" in HostStore.HOST_ROOTS && "music" !in HostStore.WATCH_ROOTS && '.' !in "music"
  {}

  lemma TemperaturePath()
    ensures Registered("weather.temperature", true, ["weather", "temperature"])
  {
    WeatherRoot();
    assert "weather.temperature" == "weather" + "." + "temperature";
    TwoSegments("weather", "temperature", "weather.temperature",
                HostStore.HOST_ROOTS, HostStore.WATCH_ROOTS, HostStore.LEAF_PATHS);
  }

  lemma ConditionPath()
    ensures Registered("weather.condition", true, ["weather", "condition"])
  {
    WeatherRoot();
    assert "weather.condition" == "weather" + "." + "condition";
    TwoSegments("weather", "condition", "weather.condition",
                HostStore.HOST_ROOTS, HostStore.WATCH_ROOTS, HostStore.LEAF_PATHS);
  }

  lemma TitlePath()
    ensures Registered("music.title", true, ["music", "title"])
  {
    MusicRoot();
    assert "music.title" == "music" + "." + "title";
    TwoSegments("music", "title", "music.title",
                HostStore.HOST_ROOTS, HostStore.WATCH_ROOTS, HostStore.LEAF_PATHS);
  }

  lemma PlayingPath()
    ensures Registered("music.playing", true, ["music", "playing"])
  {
    MusicRoot();
    assert "music.playing" == "music" + "." + "playing";
    TwoSegments("music", "playing", "music.playing",
                HostStore.HOST_ROOTS, HostStore.WATCH_ROOTS, HostStore.LEAF_PATHS);
  }

  /** A path that is itself a root of the host. */
  lemma OneSegment(path: string, leafOnly: bool, hostRoots: set<string>, watchRoots: set<string>, leaves: set<string>)
    requires '.' !in path && path != "" && path in hostRoots && path !in watchRoots && (leafOnly ==> path in leaves)
    ensures HostStore.PathIn(path, leafOnly, hostRoots, watchRoots, leaves) && Split(path) == [path]
  {
    SplitNoDot(path);
  }

  lemma StepsRoot()
    ensures "steps" in HostStore.HOST_ROOTS && "steps" !in HostStore.WATCH_ROOTS && '.' !in "steps"
    ensures "steps" in HostStore.LEAF_PATHS
  {}

  lemma NotificationsRoot()
    ensures "notifications" in HostStore.HOST_ROOTS && "notifications" !in HostStore.WATCH_ROOTS
    ensures '.' !in "notifications"
  {}

  lemma StepsPath()
    ensures Registered("steps", true, ["steps"])
  {
    StepsRoot();
    OneSegment("steps", true, HostStore.HOST_ROOTS, HostStore.WATCH_ROOTS, HostStore.LEAF_PATHS);
  }

  lemma NotificationsPath()
    ensures Registered("notifications", false, ["notifications"])
  {
    NotificationsRoot();
    OneSegment("notifications", false, HostStore.HOST_ROOTS, HostStore.WATCH_ROOTS, HostStore.LEAF_PATHS);
  }

  /** Writing one member of a section, which is created when missing. */
  lemma ReplaceInSection(j: Json, section: string, name: string, value: Json)
    requires j.Obj? && (section in j.members ==> j.members[section].Obj?)
    ensures Replaced(j, [section, name], value) ==
            Some(Obj(j.members[section := Obj(Section(j, section).members[name := value])]))
  {
    var child := Section(j, section);
    assert [section, name][1..] == [name];
    assert [name][1..] == [];
    assert Replaced(ChildOr(child, name), [], value) == Some(value);
    assert Replaced(child, [name], value) == Some(Obj(child.members[name := value]));
  }

  lemma ReplaceMember(j: Json, name: string, value: Json)
    requires j.Obj?
    ensures Replaced(j, [name], value) == Some(Obj(j.members[name := value]))
  {
    assert [name][1..] == [];
    assert Replaced(ChildOr(j, name), [], value) == Some(value);
  }

  /** Which path a parsed change came from. */
  lemma ChangePath(path: string, value: Json, isSet: bool)
    requires ParseChange(path, value, isSet).Some?
    ensures match ParseChange(path, value, isSet).value
            case Temperature(t) => path == "weather.temperature" && AsI16(value) == Some(t)
            case Condition(text) => path == "weather.condition" && value == Str(text)
            case Title(text) => path == "music.title" && value == Str(text)
            case Playing(flag) => path == "music.playing" && value == Bool(flag)
            case Steps(n) => path == "steps" && AsU32(value) == Some(n)
            case NotificationSet(list) => path == "notifications" && isSet && ListOk(value) && ListValue(value) == list
  {}

  /** The segments under which a change is stored. */
  function Segments(c: Change): seq<string> {
    match c
    case Temperature(_) => ["weather", "temperature"]
    case Condition(_) => ["weather", "condition"]
    case Title(_) => ["music", "title"]
    case Playing(_) => ["music", "playing"]
    case Steps(_) => ["steps"]
    case NotificationSet(_) => ["notifications"]
  }

  lemma RegisteredPaths(c: Change, path: string)
    requires match c
             case Temperature(t) => path == "weather.temperature"
             case Condition(text) => path == "weather.condition"
             case Title(text) => path == "music.title"
             case Playing(flag) => path == "music.playing"
             case Steps(n) => path == "steps"
             case NotificationSet(list) => path == "notifications"
    ensures Registered(path, !c.NotificationSet?, Segments(c))
  {
    match c
    case Temperature(_) => TemperaturePath();
    case Condition(_) => ConditionPath();
    case Title(_) => TitlePath();
    case Playing(_) => PlayingPath();
    case Steps(_) => StepsPath();
    case NotificationSet(_) => NotificationsPath();
  }

  /** What a mutation the watch accepts is made of. */
  lemma MutationParts(m: Message)
    requires ParseMutation(m).Some?
    ensures "path" in m.payload && m.payload["path"].Str? && "value" in m.payload
    ensures ParseChange(m.payload["path"].text, m.payload["value"], m.kind == StateSet) ==
            Some(ParseMutation(m).value.change)
  {}

  /** The host crate writes a supported mutation at the segments of its path. */
  lemma AppliesAtSegments(j: Json, m: Message)
    requires (m.kind == StateSet || m.kind == StatePatch) && ParseMutation(m).Some?
    ensures "value" in m.payload
    ensures HostStore.ApplyCurrent(j, m) == Replaced(j, Segments(ParseMutation(m).value.change), m.payload["value"])
  {
    MutationParts(m);
    hide ParseMutation, Replaced, Split;
    var path := m.payload["path"].text;
    var change := ParseMutation(m).value.change;
    ChangePath(path, m.payload["value"], m.kind == StateSet);
    hide ParseChange;
    RegisteredPaths(change, path);
    assert HostStore.HostPath(path, m.kind == StatePatch);
  }

  /** A mutation the watch accepts lands in the host crate's tree where the watch puts it. */
  lemma ApplyAgrees(j: Json, m: Message)
    requires WellTyped(j) && (m.kind == StateSet || m.kind == StatePatch) && ParseMutation(m).Some?
    ensures var next := HostStore.ApplyCurrent(j, m);
            next.Some? && WellTyped(next.value) &&
            ViewOf(next.value) == Applied(ViewOf(j), ParseMutation(m).value.change)
  {
    MutationParts(m);
    hide ParseMutation, HostStore.ApplyCurrent, WellTyped, ViewOf;
    var value := m.payload["value"];
    ChangePath(m.payload["path"].text, value, m.kind == StateSet);
    hide ParseChange;
    AppliesAtSegments(j, m);
    match ParseMutation(m).value.change
    case Temperature(_) => WeatherAgrees(j, "temperature", value);
    case Condition(_) => WeatherAgrees(j, "condition", value);
    case Title(_) => MusicAgrees(j, "title", value);
    case Playing(_) => MusicAgrees(j, "playing", value);
    case Steps(_) => StepsAgree(j, value);
    case NotificationSet(_) => NotificationsAgree(j, value);
  }

  lemma StepsAgree(j: Json, value: Json)
    requires WellTyped(j) && AsU32(value).Some?
    ensures var next := Replaced(j, ["steps"], value);
            next.Some? && WellTyped(next.value) && ViewOf(next.value) == ViewOf(j).(steps := value.value)
  {
    ReplaceMember(j, "steps", value);
  }

  lemma NotificationsAgree(j: Json, value: Json)
    requires WellTyped(j) && ListOk(value)
    ensures var next := Replaced(j, ["notifications"], value);
            next.Some? && WellTyped(next.value) && ViewOf(next.value) == ViewOf(j).(notifications := ListValue(value))
  {
    ReplaceMember(j, "notifications", value);
  }

  lemma WeatherAgrees(j: Json, name: string, value: Json)
    requires WellTyped(j)
    requires (name == "temperature" && AsI16(value).Some?) || (name == "condition" && value.Str?)
    ensures var next := Replaced(j, ["weather", name], value);
            next.Some? && WellTyped(next.value) &&
            ViewOf(next.value) ==
              if name == "temperature" then ViewOf(j).(temperature := value.value)
              else ViewOf(j).(condition := Truncate(value.text, CONDITION_CAPACITY))
  {
    ReplaceInSection(j, "weather", name, value);
  }

  lemma MusicAgrees(j: Json, name: string, value: Json)
    requires WellTyped(j)
    requires (name == "playing" && value.Bool?) || (name == "title" && value.Str?)
    ensures var next := Replaced(j, ["music", name], value);
            next.Some? && WellTyped(next.value) &&
            ViewOf(next.value) ==
              if name == "playing" then ViewOf(j).(playing := value.flag)
              else ViewOf(j).(title := Truncate(value.text, MUSIC_TITLE_CAPACITY))
  {
    ReplaceInSection(j, "music", name, value);
  }

  /** A mutation kind the watch supports, with a value it accepts. */
  predicate Supported(m: Message) {
    (m.kind == StateSet || m.kind == StatePatch) && ParseMutation(m).Some?
  }

  /** The message is supported, and this is the mutation the watch reads in it. */
  predicate Carries(m: Message, mutation: Mutation) {
    Supported(m) && ParseMutation(m).value == mutation
  }

  type Link = (Message, Mutation) -> bool

  /** Every message buffered by the host crate carries the mutation buffered by the watch. */
  predicate SameBuffer(carries: Link, buffer: map<U64, Change>, buffered: map<U64, Message>) {
    buffer.Keys == buffered.Keys && forall r :: r in buffered ==> carries(buffered[r], Mutation(r, buffer[r]))
  }

  /** The tree is well typed and this is what the watch would show of it. */
  predicate Shows(j: Json, host: HostData) {
    WellTyped(j) && ViewOf(j) == host
  }

  ghost predicate Related(sync: Sync, host: HostData, s: HostStore.Store) {
    && sync.revision == s.revision && sync.syncing == s.syncing
    && SameBuffer(Carries, sync.buffer, s.buffered)
    && Shows(s.state, host)
  }

  /** The watch's result that answers a disposition; a stale message is reported differently while syncing. */
  predicate Answers(d: HostStore.Disposition, result: SyncResult, stale: bool) {
    match d
    case Applied => result == Changed
    case IgnoredStale => result == Unchanged
    case SyncRequired => result == NeedsSnapshot
    case Buffered => result == if stale then Unchanged else SyncResult.Buffered
  }

  lemma BothBuffer(
    carries: Link, buffer: map<U64, Change>, buffered: map<U64, Message>, m: Message, mutation: Mutation)
    requires SameBuffer(carries, buffer, buffered) && carries(m, mutation)
    ensures SameBuffer(carries, buffer[mutation.revision := mutation.change], buffered[mutation.revision := m])
  {
    assert buffer[mutation.revision := mutation.change].Keys == buffer.Keys + {mutation.revision};
    assert buffered[mutation.revision := m].Keys == buffered.Keys + {mutation.revision};
  }

  /** The watch alone runs out of slots: a seventeenth revision would have to be buffered. */
  predicate OutOfSlots(sync: Sync, revision: U64) {
    sync.syncing && |sync.buffer| == 16 && revision > sync.revision && revision !in sync.buffer
  }

  /** A supported mutation passes the host crate's checks on the message, with the same revision. */
  lemma SupportedShape(m: Message)
    requires Supported(m)
    ensures HostStore.Validates(m) && HostStore.IsMutation(m.kind)
    ensures AsU64(Member(m.payload, "revision")) == Some(ParseMutation(m).value.revision)
  {}

  /**
   * On a supported mutation the two reducers answer alike and stay related, except that the
   * watch reports an error, and changes nothing, when it runs out of slots.
   */
  lemma MutationSimulates(sync: Sync, state: State, s: HostStore.Store, m: Message)
    requires SyncOk(sync) && Related(sync, state.host, s) && Supported(m)
    ensures var mutation := ParseMutation(m).value;
            var h := HandleMutation(sync, state, mutation);
            var (outcome, after) := HostStore.Apply(s, m);
            && outcome.Ok?
            && (h.result == Error <==> OutOfSlots(sync, mutation.revision))
            && (h.result == Error ==> h.sync == sync && h.state == state)
            && (h.result != Error ==> Related(h.sync, h.state.host, after))
            && (h.result != Error ==> Answers(outcome.value, h.result, mutation.revision <= sync.revision))
  {
    SupportedShape(m);
    ApplyAgrees(s.state, m);
    hide ParseMutation, HostStore.ApplyCurrent, HostStore.Validates, HandleMutation, HostStore.Apply;
    var mutation := ParseMutation(m).value;
    var next := HostStore.ApplyCurrent(s.state, m).value;
    BothSequence(Carries, sync, state, s, m, mutation, next);
  }

  /** The sequencing rules agree, whatever applying the message does to the tree. */
  lemma BothSequence(
    carries: Link, sync: Sync, state: State, s: HostStore.Store, m: Message, mutation: Mutation, next: Json)
    requires SyncOk(sync) && SameBuffer(carries, sync.buffer, s.buffered) && Shows(s.state, state.host)
    requires sync.revision == s.revision && sync.syncing == s.syncing
    requires HostStore.Validates(m) && HostStore.IsMutation(m.kind) && carries(m, mutation)
    requires AsU64(Member(m.payload, "revision")) == Some(mutation.revision)
    requires HostStore.ApplyCurrent(s.state, m) == Some(next) && Shows(next, Applied(state.host, mutation.change))
    ensures var h := HandleMutation(sync, state, mutation);
            var (outcome, after) := HostStore.Apply(s, m);
            && outcome.Ok?
            && (h.result == Error <==> OutOfSlots(sync, mutation.revision))
            && (h.result == Error ==> h.sync == sync && h.state == state)
            && (h.result != Error ==> h.sync.revision == after.revision && h.sync.syncing == after.syncing)
            && (h.result != Error ==> SameBuffer(carries, h.sync.buffer, after.buffered))
            && (h.result != Error ==> Shows(after.state, h.state.host))
            && (h.result != Error ==> Answers(outcome.value, h.result, mutation.revision <= sync.revision))
  {
    hide HostStore.ApplyCurrent, HostStore.Validates, Shows, Applied;
    BothBuffer(carries, sync.buffer, s.buffered, m, mutation);
    hide SameBuffer;
  }

  /** Replay of related buffers: the same run, the same view, the same leftovers. */
  lemma {:induction false} ReplaySimulates(revision: U64, host: HostData, buffer: map<U64, Change>, s: HostStore.Store)
    requires s.revision == revision && WellTyped(s.state) && ViewOf(s.state) == host
    requires SameBuffer(Carries, Beyond(buffer, revision), s.buffered)
    ensures var last := RunEnd(revision, buffer);
            var (outcome, after) := HostStore.Replay(s);
            && (last == U64_MAX ==> outcome == HostStore.Err(HostStore.Overflow))
            && (last < U64_MAX ==>
                  outcome.Ok? && after.revision == last && SameBuffer(Carries, Beyond(buffer, last), after.buffered) &&
                  WellTyped(after.state) && ViewOf(after.state) == RunHost(revision, host, buffer))
    decreases U64_MAX - revision
  {
    hide HostStore.ApplyCurrent, WellTyped, ViewOf, Applied, ParseMutation, Beyond;
    if revision < U64_MAX {
      var r: U64 := revision + 1;
      NextInBoth(buffer, revision, s.buffered);
      if r in buffer {
        hide SameBuffer, Carries;
        ApplyAgrees(s.state, s.buffered[r]);
        var applied := HostStore.ApplyCurrent(s.state, s.buffered[r]).value;
        var next := s.(buffered := s.buffered - {r}, state := applied, revision := r);
        TakeFromBoth(Carries, buffer, s.buffered, revision);
        ReplaySimulates(r, Applied(host, buffer[r]), buffer, next);
      }
    }
  }

  /** Both sides have the next revision or neither has, with the same change. */
  lemma NextInBoth(buffer: map<U64, Change>, revision: U64, buffered: map<U64, Message>)
    requires revision < U64_MAX && SameBuffer(Carries, Beyond(buffer, revision), buffered)
    ensures revision + 1 in buffer <==> revision + 1 in buffered
    ensures revision + 1 in buffer ==>
              Supported(buffered[revision + 1]) &&
              ParseMutation(buffered[revision + 1]).value.change == buffer[revision + 1]
  {
    hide ParseMutation;
    assert revision + 1 in buffer <==> revision + 1 in Beyond(buffer, revision);
    assert revision + 1 in buffered ==> Carries(buffered[revision + 1], Mutation(revision + 1, buffer[revision + 1]));
  }

  lemma TakeFromBoth(carries: Link, buffer: map<U64, Change>, buffered: map<U64, Message>, revision: U64)
    requires revision < U64_MAX && SameBuffer(carries, Beyond(buffer, revision), buffered)
    ensures SameBuffer(carries, Beyond(buffer, revision + 1), buffered - {revision + 1})
  {
    var r: U64 := revision + 1;
    assert forall k :: k in Beyond(buffer, r) <==> k in Beyond(buffer, revision) && k != r;
    assert Beyond(buffer, r).Keys == (buffered - {r}).Keys;
  }

  /**
   * On a snapshot the watch accepts, both install it, replay the same run and agree on whether
   * a gap is left, whatever their data and revisions were before, unless the run reaches the last
   * revision: there the host crate's checked arithmetic has no successor, while the watch carries
   * on.
   */
  lemma SnapshotSimulates(sync: Sync, state: State, s: HostStore.Store, m: Message)
    requires SameBuffer(Carries, sync.buffer, s.buffered)
    requires m.kind == SyncResponse && ParseSnapshot(m.payload).Some?
    ensures var h := Handle(sync, state, m);
            var (outcome, after) := HostStore.InstallSnapshot(s, m);
            && (h.sync.revision == U64_MAX <==> outcome == HostStore.Err(HostStore.Overflow))
            && (h.sync.revision < U64_MAX ==> outcome.Ok? && Related(h.sync, h.state.host, after))
  {
    var (revision, host) := ParseSnapshot(m.payload).value;
    var tree := m.payload["state"];
    SnapshotView(tree.members);
    assert HostStore.Validates(m);
    InstallSimulates(sync, host, s, revision, tree);
  }

  lemma InstallSimulates(sync: Sync, host: HostData, s: HostStore.Store, revision: U64, tree: Json)
    requires SameBuffer(Carries, sync.buffer, s.buffered) && Shows(tree, host)
    ensures var installed := Install(sync, revision);
            var (outcome, after) := HostStore.Replay(HostStore.Seated(s, revision, tree));
            && (installed.revision == U64_MAX <==> outcome == HostStore.Err(HostStore.Overflow))
            && (installed.revision < U64_MAX ==> outcome.Ok?)
            && (installed.revision < U64_MAX ==>
                  Related(installed, RunHost(revision, host, sync.buffer), after.(syncing := HostStore.HasGap(after))))
  {
    var seated := HostStore.Seated(s, revision, tree);
    RetainBoth(Carries, sync.buffer, s.buffered, revision);
    ReplaySimulates(revision, host, sync.buffer, seated);
    var last := RunEnd(revision, sync.buffer);
    if last < U64_MAX {
      SameGap(Carries, revision, host, sync.buffer, HostStore.Replay(seated).1);
    }
  }

  lemma RetainBoth(carries: Link, buffer: map<U64, Change>, buffered: map<U64, Message>, revision: U64)
    requires SameBuffer(carries, buffer, buffered)
    ensures SameBuffer(carries, Beyond(buffer, revision), HostStore.Retained(buffered, revision))
  {
    assert Beyond(buffer, revision).Keys == HostStore.Retained(buffered, revision).Keys;
  }

  lemma SameGap(carries: Link, revision: U64, host: HostData, buffer: map<U64, Change>, after: HostStore.Store)
    requires after.revision == RunEnd(revision, buffer) < U64_MAX
    requires SameBuffer(carries, Beyond(buffer, after.revision), after.buffered)
    ensures HostStore.HasGap(after) <==> Beyond(buffer, after.revision) != map[]
  {
    ReplayIsMaximalRun(revision, host, buffer);
    var rest := Beyond(buffer, after.revision);
    assert forall r :: r in after.buffered ==> r in rest && r != after.revision + 1;
    if rest == map[] {
      assert after.buffered.Keys == {};
    } else {
      var r :| r in rest;
      assert r in after.buffered;
    }
  }

  // ---------- messages one side does not take ----------

  predicate ListEdit(kind: Kind) {
    kind == ListInsert || kind == ListUpdate || kind == ListRemove
  }

  /** The watch cannot read the message, or has no slot for it. */
  predicate Unacceptable(sync: Sync, m: Message) {
    || (m.kind == SyncResponse && ParseSnapshot(m.payload).None?)
    || ((m.kind == StateSet || m.kind == StatePatch) &&
        (ParseMutation(m).None? || OutOfSlots(sync, ParseMutation(m).value.revision)))
  }

  /** That is exactly what it reports an error on, without any effect. */
  lemma ErrorIff(sync: Sync, state: State, m: Message)
    requires SyncOk(sync)
    ensures Handle(sync, state, m).result == Error <==> Unacceptable(sync, m)
    ensures Handle(sync, state, m).result == Error ==> Handle(sync, state, m) == Handled(Error, sync, state)
  {
    HandleKeepsInvariant(sync, state, m);
    hide ParseSnapshot, ParseMutation;
  }

  /** What the store applies, buffers or asks a snapshot for shows. */
  lemma TakenShows(s: HostStore.Store, m: Message)
    ensures var after := HostStore.Apply(s, m).1;
            after == s || after.revision != s.revision || after.syncing != s.syncing ||
            after.buffered.Keys != s.buffered.Keys
  {
    var revision := AsU64(Member(m.payload, "revision"));
    if revision.Some? {
      assert revision.value in s.buffered[revision.value := m].Keys;
    }
  }

  /**
   * One message that is not a snapshot leaves the two sides related exactly when the watch
   * supports it and has a slot for it, or the store has nothing to do with it either.
   */
  lemma StaysRelatedIff(sync: Sync, state: State, s: HostStore.Store, m: Message)
    requires SyncOk(sync) && Related(sync, state.host, s) && m.kind != SyncResponse
    ensures var h, after := Handle(sync, state, m), HostStore.Apply(s, m).1;
            Related(h.sync, h.state.host, after) <==>
            !HostStore.Acts(s, m) || (Supported(m) && !OutOfSlots(sync, ParseMutation(m).value.revision))
  {
    TakenShows(s, m);
    HostStore.ActsIff(s, m);
    ErrorIff(sync, state, m);
    if Supported(m) {
      MutationSimulates(sync, state, s, m);
    }
    hide ParseMutation, HostStore.Apply, HostStore.Acts, WellTyped, HandleMutation;
  }

  /**
   * A list edit the store applies is passed over by the watch, which then finds every supported
   * mutation that follows it two revisions ahead and asks for a snapshot, while the store applies
   * it as far as its own checks allow.
   */
  lemma ListEditLeavesGap(sync: Sync, state: State, s: HostStore.Store, m: Message, n: Message)
    requires SyncOk(sync) && Related(sync, state.host, s) && ListEdit(m.kind)
    requires HostStore.Apply(s, m).0 == HostStore.Ok(HostStore.Applied)
    requires Supported(n) && ParseMutation(n).value.revision == s.revision + 2
    ensures var after := HostStore.Apply(s, m).1;
            && Handle(sync, state, m) == Handled(Unchanged, sync, state) && !Related(sync, state.host, after)
            && Handle(sync, state, n).result == NeedsSnapshot
            && (HostStore.Takes(after.state, n) ==>
                  HostStore.Apply(after, n).0 == HostStore.Ok(HostStore.Applied))
  {
    hide HostStore.Apply, HostStore.Takes, HostStore.Validates, WellTyped, ParseMutation, HandleMutation;
    var after := HostStore.Apply(s, m).1;
    AppliedInOrder(s, m);
    StaysRelatedIff(sync, state, s, m);
    SupportedShape(n);
    GapAhead(sync, state, n);
    NextApplies(after, n);
  }

  lemma AppliedInOrder(s: HostStore.Store, m: Message)
    requires HostStore.Apply(s, m).0 == HostStore.Ok(HostStore.Applied)
    ensures var after := HostStore.Apply(s, m).1;
            !s.syncing && !after.syncing && after.revision == s.revision + 1 && after.buffered == s.buffered
  {}

  lemma GapAhead(sync: Sync, state: State, n: Message)
    requires SyncOk(sync) && !sync.syncing && Supported(n) && ParseMutation(n).value.revision > sync.revision + 1
    ensures Handle(sync, state, n).result == NeedsSnapshot
  {
    hide ParseMutation;
  }

  lemma NextApplies(s: HostStore.Store, n: Message)
    requires HostStore.Validates(n) && HostStore.IsMutation(n.kind) && !s.syncing && s.revision < U64_MAX
    requires AsU64(Member(n.payload, "revision")) == Some(s.revision + 1)
    ensures HostStore.Takes(s.state, n) <==> HostStore.Apply(s, n).0 == HostStore.Ok(HostStore.Applied)
  {
    HostStore.AppliesIff(s.state, n);
    hide HostStore.ApplyCurrent, HostStore.Takes, HostStore.Validates;
  }

  const WATCH_PATHS := HostStore.LEAF_PATHS + {"notifications"}

  lemma OtherPathUnread(path: string, value: Json, isSet: bool)
    requires path !in WATCH_PATHS
    ensures ParseChange(path, value, isSet).None?
  {}

  /**
   * Every mutation of a path of the host that the watch does not show, such as the calendar or a
   * whole section, is an error there, although the store applies it when its turn comes.
   */
  lemma OtherPathIsError(sync: Sync, state: State, s: HostStore.Store, m: Message)
    requires SyncOk(sync) && Related(sync, state.host, s) && !s.syncing
    requires m.kind == StateSet && HostStore.Validates(m) && HostStore.Takes(s.state, m)
    requires AsU64(Member(m.payload, "revision")) == Some(s.revision + 1)
    requires m.payload["path"].text !in WATCH_PATHS
    ensures HostStore.Apply(s, m).0 == HostStore.Ok(HostStore.Applied)
    ensures Handle(sync, state, m) == Handled(Error, sync, state)
    ensures !Related(sync, state.host, HostStore.Apply(s, m).1)
  {
    HostStore.AppliesIff(s.state, m);
    OtherPathUnread(m.payload["path"].text, m.payload["value"], true);
    ErrorIff(sync, state, m);
    hide HostStore.ApplyCurrent, HostStore.Takes, ParseChange, HandleMutation;
  }

  // ---------- whole streams ----------

  /** A list edit for the store, which the watch passes over in silence. */
  predicate Missed(s: HostStore.Store, m: Message) {
    ListEdit(m.kind) && HostStore.Acts(s, m)
  }

  /** A message at the store: a snapshot is installed, anything else applied or refused. */
  function StoreStep(s: HostStore.Store, m: Message): HostStore.Store {
    if m.kind == SyncResponse then HostStore.InstallSnapshot(s, m).1 else HostStore.Apply(s, m).1
  }

  /** The stream ends here: an error at the watch, or a snapshot whose run reaches the last revision. */
  predicate Stops(sync: Sync, m: Message) {
    Unacceptable(sync, m) ||
    (m.kind == SyncResponse && RunEnd(ParseSnapshot(m.payload).value.0, sync.buffer) == U64_MAX)
  }

  /** The two sides are related before and after every message. */
  ghost predicate RelatedThroughout(sync: Sync, state: State, s: HostStore.Store, ms: seq<Message>)
    decreases |ms|
  {
    Related(sync, state.host, s) &&
    (ms == [] ||
     var h := Handle(sync, state, ms[0]);
     Stops(sync, ms[0]) || RelatedThroughout(h.sync, h.state, StoreStep(s, ms[0]), ms[1..]))
  }

  predicate NoneMissed(sync: Sync, state: State, s: HostStore.Store, ms: seq<Message>)
    decreases |ms|
  {
    ms == [] ||
    var h := Handle(sync, state, ms[0]);
    Stops(sync, ms[0]) || (!Missed(s, ms[0]) && NoneMissed(h.sync, h.state, StoreStep(s, ms[0]), ms[1..]))
  }

  lemma StepSimulatesIff(sync: Sync, state: State, s: HostStore.Store, m: Message)
    requires SyncOk(sync) && Related(sync, state.host, s) && !Stops(sync, m)
    ensures var h := Handle(sync, state, m);
            Related(h.sync, h.state.host, StoreStep(s, m)) <==> !Missed(s, m)
  {
    if m.kind == SyncResponse {
      SnapshotSimulates(sync, state, s, m);
    } else {
      StaysRelatedIff(sync, state, s, m);
    }
    hide ParseMutation, ParseSnapshot, Related, HostStore.InstallSnapshot, HostStore.Apply, HostStore.Takes;
  }

  /**
   * On every stream of messages, up to the first error of the watch or the last revision, the two
   * reducers have the same revision, syncing flag, buffered mutations and host data all along, if
   * and only if the store never takes a list edit.
   */
  lemma {:induction false} StreamsSimulateIff(sync: Sync, state: State, s: HostStore.Store, ms: seq<Message>)
    requires SyncOk(sync) && Related(sync, state.host, s)
    ensures RelatedThroughout(sync, state, s, ms) <==> NoneMissed(sync, state, s, ms)
    decreases |ms|
  {
    hide Handle, HostStore.Apply, Related, Stops, Missed, StoreStep;
    if ms == [] {
    } else {
      var h := Handle(sync, state, ms[0]);
      if !Stops(sync, ms[0]) {
        StepSimulatesIff(sync, state, s, ms[0]);
        if !Missed(s, ms[0]) {
          HandleKeepsInvariant(sync, state, ms[0]);
          StreamsSimulateIff(h.sync, h.state, StoreStep(s, ms[0]), ms[1..]);
        }
      }
    }
  }
}
