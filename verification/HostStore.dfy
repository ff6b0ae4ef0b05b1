/** The host crate's reducer: the same replication rules over a JSON tree and an ordered buffer. */
module HostStore {
  import opened Integers
  import opened Wire
  import opened Paths

  const HOST_ROOTS := {"weather", "notifications", "music", "calendar", "assistant", "steps"}
  const WATCH_ROOTS := {"system", "navigation", "input"}
  const LEAF_PATHS := {"weather.temperature", "weather.condition", "music.playing", "music.title", "steps"}

  datatype Disposition = Applied | IgnoredStale | SyncRequired | Buffered

  /** `Overflow` is the panic of checked arithmetic when a revision has no successor. */
  datatype StateError = Invalid | Overflow

  datatype Outcome<+T> = Ok(value: T) | Err(error: StateError)

  datatype Store = Store(state: Json, revision: U64, syncing: bool, buffered: map<U64, Message>)

  predicate IsMutation(kind: Kind) {
    kind in {StateSet, StatePatch, ListInsert, ListUpdate, ListRemove}
  }

  /** Payload members a message of this kind must have, for the kinds the reducer looks at. */
  function RequiredFields(kind: Kind): set<string> {
    match kind
    case StateSet => {"path", "value", "revision"}
    case StatePatch => {"path", "value", "revision"}
    case ListInsert => {"path", "index", "value", "revision"}
    case ListUpdate => {"path", "index", "value", "revision"}
    case ListRemove => {"path", "index", "revision"}
    case SyncResponse => {"revision", "state"}
    case CommandResult => {"status", "code"}
    case HostCommand => {}
    case OtherKind => {}
  }

  predicate Validates(m: Message) {
    RequiredFields(m.kind) <= m.payload.Keys && (m.kind == CommandResult ==> m.replyTo.Some?)
  }

  /** No empty segment, a root of the host and not of the watch, and for a patch a registered leaf. */
  predicate PathIn(path: string, leafOnly: bool, hostRoots: set<string>, watchRoots: set<string>, leaves: set<string>) {
    (forall i :: 0 <= i < |Split(path)| ==> Split(path)[i] != "") &&
    Split(path)[0] !in watchRoots && Split(path)[0] in hostRoots && (leafOnly ==> path in leaves)
  }

  predicate HostPath(path: string, leafOnly: bool) {
    PathIn(path, leafOnly, HOST_ROOTS, WATCH_ROOTS, LEAF_PATHS)
  }

  /** One mutation on the tree, or `None` when it is refused. */
  function ApplyCurrent(state: Json, m: Message): Option<Json> {
    if "path" !in m.payload || !m.payload["path"].Str? then None
    else
      var path := m.payload["path"].text;
      if !HostPath(path, m.kind == StatePatch) then None
      else if m.kind == StateSet || m.kind == StatePatch then
        if "value" !in m.payload then None else Replaced(state, Split(path), m.payload["value"])
      else ListStep(state, Split(path), m)
  }

  /** A list operation on the list at the path. */
  function ListStep(state: Json, path: seq<string>, m: Message): Option<Json> {
    var index := AsU64(Member(m.payload, "index"));
    if index.None? || (m.kind != ListRemove && "value" !in m.payload) then None
    else
      var value := if "value" in m.payload then m.payload["value"] else Null;
      ListApplied(state, path, m.kind, index.value, value)
  }

  function Apply(s: Store, m: Message): (Outcome<Disposition>, Store) {
    if !Validates(m) || !IsMutation(m.kind) then (Err(Invalid), s)
    else
      var revision := AsU64(Member(m.payload, "revision"));
      if revision.None? then (Err(Invalid), s)
      else if s.syncing then
        if revision.value > s.revision && revision.value !in s.buffered
        then (Ok(Buffered), s.(buffered := s.buffered[revision.value := m]))
        else (Ok(Buffered), s)
      else if revision.value <= s.revision then (Ok(IgnoredStale), s)
      else if revision.value != s.revision + 1 then
        (Ok(SyncRequired), s.(syncing := true, buffered := s.buffered[revision.value := m]))
      else
        var next := ApplyCurrent(s.state, m);
        if next.None? then (Err(Invalid), s) else (Ok(Applied), s.(state := next.value, revision := revision.value))
  }

  /** The replay loop of a snapshot: ends at a gap, at a message that is refused, or out of revisions. */
  function Replay(s: Store): (Outcome<()>, Store)
    decreases U64_MAX - s.revision
  {
    if s.revision == U64_MAX then (Err(Overflow), s)
    else
      var r: U64 := s.revision + 1;
      if r !in s.buffered then (Ok(()), s)
      else
        var taken := s.(buffered := s.buffered - {r});
        var next := ApplyCurrent(s.state, s.buffered[r]);
        if next.None? then (Err(Invalid), taken) else Replay(taken.(state := next.value, revision := r))
  }

  function Retained(buffered: map<U64, Message>, revision: U64): map<U64, Message> {
    map r | r in buffered && r > revision :: buffered[r]
  }

  /** The store once a snapshot is in place, before replay. */
  function Seated(s: Store, revision: U64, state: Json): Store {
    s.(state := state, revision := revision, buffered := Retained(s.buffered, revision))
  }

  predicate HasGap(s: Store) {
    s.buffered != map[] && forall r :: r in s.buffered ==> r > s.revision + 1
  }

  function InstallSnapshot(s: Store, m: Message): (Outcome<()>, Store) {
    var revision := AsU64(Member(m.payload, "revision"));
    if !Validates(m) || m.kind != SyncResponse || revision.None? || !m.payload["state"].Obj? then (Err(Invalid), s)
    else
      var (outcome, after) := Replay(Seated(s, revision.value, m.payload["state"]));
      if outcome.Err? then (outcome, after) else (outcome, after.(syncing := HasGap(after)))
  }

  class StateStore {
    var state: Json
    var revision: U64
    var syncing: bool
    var buffered: map<U64, Message>

    function View(): Store
      reads this
    {
      Store(state, revision, syncing, buffered)
    }

    constructor (state: Json, revision: U64)
      requires state.Obj?
      ensures View() == Store(state, revision, false, map[])
    {
      this.state, this.revision, syncing, buffered := state, revision, false, map[];
    }

    /** The path and list branches, which update the tree in place or leave it alone. */
    method ApplyHere(m: Message) returns (ok: bool)
      modifies this`state
      ensures ok == ApplyCurrent(old(state), m).Some?
      ensures state == if ok then ApplyCurrent(old(state), m).value else old(state)
    {
      if "path" !in m.payload || !m.payload["path"].Str? {
        return false;
      }
      var path := m.payload["path"].text;
      if !HostPath(path, m.kind == StatePatch) {
        return false;
      }
      if m.kind == StateSet || m.kind == StatePatch {
        if "value" !in m.payload {
          return false;
        }
        ok, state := ReplacePath(state, Split(path), m.payload["value"]);
      } else {
        ok := ApplyList(Split(path), m);
      }
    }

    /** Walks down to the list and edits it in place. */
    method ApplyList(path: seq<string>, m: Message) returns (ok: bool)
      modifies this`state
      ensures ok == ListStep(old(state), path, m).Some?
      ensures state == if ok then ListStep(old(state), path, m).value else old(state)
    {
      var index := AsU64(Member(m.payload, "index"));
      if index.None? || (m.kind != ListRemove && "value" !in m.payload) {
        return false;
      }
      var current := state;
      for i := 0 to |path|
        invariant Get(state, path) == Get(current, path[i..]) && state == old(state)
      {
        if !current.Obj? || path[i] !in current.members {
          return false;
        }
        current := current.members[path[i]];
      }
      if !current.Arr? {
        return false;
      }
      var items, at := current.items, index.value;
      if m.kind == ListInsert && at <= |items| {
        items := items[..at] + [m.payload["value"]] + items[at..];
      } else if m.kind == ListUpdate && at < |items| {
        items := items[at := m.payload["value"]];
      } else if m.kind == ListRemove && at < |items| {
        items := items[..at] + items[at + 1..];
      } else {
        return false;
      }
      ExistingPathReplaces(state, path, Arr(items));
      state := Replaced(state, path, Arr(items)).value;
      return true;
    }

    method ApplyMessage(m: Message) returns (outcome: Outcome<Disposition>)
      modifies this
      ensures (outcome, View()) == Apply(old(View()), m)
    {
      var number := AsU64(Member(m.payload, "revision"));
      if !Validates(m) || !IsMutation(m.kind) || number.None? {
        return Err(Invalid);
      }
      if syncing {
        if number.value > revision && number.value !in buffered {
          buffered := buffered[number.value := m];
        }
        return Ok(Buffered);
      }
      if number.value <= revision {
        return Ok(IgnoredStale);
      }
      if number.value != revision + 1 {
        syncing := true;
        buffered := buffered[number.value := m];
        return Ok(SyncRequired);
      }
      var ok := ApplyHere(m);
      if !ok {
        return Err(Invalid);
      }
      revision := number.value;
      return Ok(Applied);
    }

    /** The `while let` loop of a snapshot installation. */
    method ReplayHere() returns (outcome: Outcome<()>)
      modifies this
      ensures (outcome, View()) == Replay(old(View()))
    {
      hide ApplyCurrent;
      while true
        invariant Replay(View()) == Replay(old(View()))
        decreases U64_MAX - revision
      {
        if revision == U64_MAX {
          return Err(Overflow);
        }
        var next: U64 := revision + 1;
        if next !in buffered {
          return Ok(());
        }
        var message := buffered[next];
        buffered := buffered - {next};
        var ok := ApplyHere(message);
        if !ok {
          return Err(Invalid);
        }
        revision := next;
      }
    }

    method Install(m: Message) returns (outcome: Outcome<()>)
      modifies this
      ensures (outcome, View()) == InstallSnapshot(old(View()), m)
    {
      var number := AsU64(Member(m.payload, "revision"));
      if !Validates(m) || m.kind != SyncResponse || number.None? || !m.payload["state"].Obj? {
        return Err(Invalid);
      }
      state := m.payload["state"];
      revision := number.value;
      buffered := map r | r in buffered && r > number.value :: buffered[r];
      assert View() == Seated(old(View()), number.value, state);
      outcome := ReplayHere();
      if outcome.Ok? {
        syncing := buffered != map[] && forall r | r in buffered :: r > revision + 1;
      }
    }
  }

  // ---------- errors ----------

  /** An error of `apply` leaves the store exactly as it was. */
  lemma ApplyErrorsAreAtomic(s: Store, m: Message)
    ensures Apply(s, m).0.Err? ==> Apply(s, m).1 == s
  {}

  /** Some proper prefix of the path resolves to something that is not an object. */
  predicate Blocked(state: Json, path: seq<string>) {
    exists i | 0 <= i < |path| :: Get(state, path[..i]).Some? && !Get(state, path[..i]).value.Obj?
  }

  /** The index is readable and within the list at the path; an insertion may go right after its end. */
  predicate IndexFits(state: Json, path: seq<string>, m: Message) {
    var target, index := Get(state, path), AsU64(Member(m.payload, "index"));
    && target.Some? && target.value.Arr? && index.Some?
    && if m.kind == ListInsert then index.value <= |target.value.items| else index.value < |target.value.items|
  }

  /** The checks a mutation has to pass: its path, its value, and what is at its path. */
  predicate Takes(state: Json, m: Message) {
    && "path" in m.payload && m.payload["path"].Str? && HostPath(m.payload["path"].text, m.kind == StatePatch)
    && (m.kind != ListRemove ==> "value" in m.payload)
    && match m.kind
       case StateSet => !Blocked(state, Split(m.payload["path"].text))
       case StatePatch => !Blocked(state, Split(m.payload["path"].text))
       case ListInsert => IndexFits(state, Split(m.payload["path"].text), m)
       case ListUpdate => IndexFits(state, Split(m.payload["path"].text), m)
       case ListRemove => IndexFits(state, Split(m.payload["path"].text), m)
       case _ => false
  }

  /** A mutation applies exactly when it passes them. */
  lemma AppliesIff(state: Json, m: Message)
    ensures ApplyCurrent(state, m).Some? <==> Takes(state, m)
  {
    if "path" in m.payload && m.payload["path"].Str? {
      var path := Split(m.payload["path"].text);
      var value := if "value" in m.payload then m.payload["value"] else Null;
      ReplacesIff(state, path, value);
      hide Replaced, ListApplied, Get, Split, HostPath, Blocked;
      var index := AsU64(Member(m.payload, "index"));
      if index.Some? && (m.kind == ListInsert || m.kind == ListUpdate || m.kind == ListRemove) {
        ListAppliesIff(state, path, m.kind, index.value, value);
      }
    }
  }

  lemma ReplacesIff(state: Json, path: seq<string>, value: Json)
    ensures Replaced(state, path, value).Some? <==> !Blocked(state, path)
  {
    ReplaceFailsIff(state, path, value);
    hide Replaced, Get;
  }

  lemma ListAppliesIff(state: Json, path: seq<string>, kind: Kind, index: nat, value: Json)
    requires kind == ListInsert || kind == ListUpdate || kind == ListRemove
    ensures ListApplied(state, path, kind, index, value).Some? <==>
            && Get(state, path).Some? && Get(state, path).value.Arr?
            && if kind == ListInsert then index <= |Get(state, path).value.items|
               else index < |Get(state, path).value.items|
  {
    if Get(state, path).Some? && Get(state, path).value.Arr? {
      var items := ListEdited(Get(state, path).value.items, kind, index, value);
      if items.Some? {
        ExistingPathReplaces(state, path, Arr(items.value));
      }
    }
  }

  /** The list at a path, if that is what is there. */
  predicate ListAt(state: Json, path: seq<string>, items: seq<Json>) {
    Get(state, path) == Some(Arr(items))
  }

  /** The list operations by what they do to each position. */
  predicate Edits(kind: Kind, before: seq<Json>, at: nat, value: Option<Json>, after: seq<Json>) {
    match kind
    case ListInsert =>
      && at <= |before| && |after| == |before| + 1 && value == Some(after[at])
      && (forall k :: 0 <= k < at ==> after[k] == before[k])
      && (forall k :: at <= k < |before| ==> after[k + 1] == before[k])
    case ListUpdate =>
      && at < |before| && |after| == |before| && value == Some(after[at])
      && (forall k :: 0 <= k < |before| && k != at ==> after[k] == before[k])
    case ListRemove =>
      && at < |before| && |after| == |before| - 1
      && (forall k :: 0 <= k < at ==> after[k] == before[k])
      && (forall k :: at < k < |before| ==> after[k - 1] == before[k])
    case _ => false
  }

  /**
   * A list edit that applies turns the list at its path into one with the value inserted at the
   * index, put there, or the item there removed; and whatever is not on that path stays.
   */
  lemma ListEditEffect(state: Json, m: Message) returns (before: seq<Json>, after: seq<Json>)
    requires m.kind == ListInsert || m.kind == ListUpdate || m.kind == ListRemove
    requires ApplyCurrent(state, m).Some?
    ensures var path, next := Split(m.payload["path"].text), ApplyCurrent(state, m).value;
            && AsU64(Member(m.payload, "index")).Some?
            && ListAt(state, path, before) && ListAt(next, path, after)
            && Edits(m.kind, before, m.payload["index"].value, Member(m.payload, "value"), after)
            && forall other :: Apart(path, other) ==> Get(next, other) == Get(state, other)
  {
    var path, at := Split(m.payload["path"].text), AsU64(Member(m.payload, "index")).value;
    var value := if "value" in m.payload then m.payload["value"] else Null;
    var next := ApplyCurrent(state, m).value;
    before := Get(state, path).value.items;
    after := ListEdited(before, m.kind, at, value).value;
    hide Get, Replaced, Split, HostPath, Apart;
    ReplaceThenGet(state, path, Arr(after));
    forall other | Apart(path, other)
      ensures Get(next, other) == Get(state, other)
    {
      ReplaceElsewhere(state, path, other, Arr(after));
    }
  }

  /** A set or a patch that applies leaves its value at its path, and whatever is not on that path as it was. */
  lemma WriteEffect(state: Json, m: Message)
    requires m.kind == StateSet || m.kind == StatePatch
    requires ApplyCurrent(state, m).Some?
    ensures var path, next := Split(m.payload["path"].text), ApplyCurrent(state, m).value;
            && Get(next, path) == Member(m.payload, "value")
            && forall other :: Apart(path, other) ==> Get(next, other) == Get(state, other)
  {
    var path, next := Split(m.payload["path"].text), ApplyCurrent(state, m).value;
    hide Get, Replaced, Split, HostPath, Apart;
    ReplaceThenGet(state, path, m.payload["value"]);
    forall other | Apart(path, other)
      ensures Get(next, other) == Get(state, other)
    {
      ReplaceElsewhere(state, path, other, m.payload["value"]);
    }
  }

  /** A message is applied exactly when it is its turn and it passes its checks; the tree and the revision change. */
  lemma AppliedIff(s: Store, m: Message)
    ensures Apply(s, m).0 == Ok(Applied) <==>
            !s.syncing && AsU64(Member(m.payload, "revision")) == Some(s.revision + 1) && Takes(s.state, m)
    ensures Apply(s, m).0 == Ok(Applied) ==>
              && ApplyCurrent(s.state, m).Some?
              && Apply(s, m).1 == Store(ApplyCurrent(s.state, m).value, s.revision + 1, false, s.buffered)
  {
    AppliesIff(s.state, m);
    ValidatesIff(m);
    if Takes(s.state, m) {
      TakenIsValid(s.state, m);
    }
    hide ApplyCurrent, Takes, Validates, IsMutation;
  }

  lemma TakenIsValid(state: Json, m: Message)
    requires Takes(state, m)
    ensures "path" in m.payload && (m.kind != ListRemove ==> "value" in m.payload)
    ensures m.kind == StateSet || m.kind == StatePatch || "index" in m.payload
    ensures m.kind == StateSet || m.kind == StatePatch || m.kind == ListInsert || m.kind == ListUpdate ||
            m.kind == ListRemove
  {
    hide Get, Split, HostPath;
  }

  /** The kinds of mutations, and what each must have. */
  lemma ValidatesIff(m: Message)
    ensures Validates(m) && IsMutation(m.kind) <==>
            && (m.kind == StateSet || m.kind == StatePatch || m.kind == ListInsert || m.kind == ListUpdate ||
                m.kind == ListRemove)
            && "path" in m.payload && "revision" in m.payload
            && (m.kind != ListRemove ==> "value" in m.payload)
            && (m.kind == StateSet || m.kind == StatePatch || "index" in m.payload)
  {
    var keys := m.payload.Keys;
    assert {"path", "value", "revision"} <= keys <==> "path" in keys && "value" in keys && "revision" in keys;
    assert {"path", "index", "value", "revision"} <= keys <==>
        "path" in keys && "index" in keys && "value" in keys && "revision" in keys;
    assert {"path", "index", "revision"} <= keys <==> "path" in keys && "index" in keys && "revision" in keys;
  }

  /** The roots of the host, each with every path below it; for a patch, the five leaves. */
  lemma HostPathIff(root: string, below: string)
    requires '.' !in root
    ensures HostPath(root, false) <==>
            root in ["weather", "notifications", "music", "calendar", "assistant", "steps"]
    ensures HostPath(root + "." + below, false) <==>
            HostPath(root, false) && forall i :: 0 <= i < |Split(below)| ==> Split(below)[i] != ""
    ensures HostPath(below, true) <==>
            HostPath(below, false) && below in ["weather.temperature", "weather.condition", "music.playing",
                                                "music.title", "steps"]
  {
    SplitNoDot(root);
    SplitAtDot(root, below);
    RootsApart(root);
    var path := root + "." + below;
    assert Split(path) == [root] + Split(below);
    assert forall i :: 0 <= i < |Split(below)| ==> Split(path)[i + 1] == Split(below)[i];
    hide Split;
    if forall i :: 0 <= i < |Split(path)| ==> Split(path)[i] != "" {
      forall i | 0 <= i < |Split(below)|
        ensures Split(below)[i] != ""
      {
        assert Split(path)[i + 1] != "";
      }
    }
  }

  lemma RootsApart(root: string)
    ensures root in HOST_ROOTS <==> root in ["weather", "notifications", "music", "calendar", "assistant", "steps"]
    ensures root in HOST_ROOTS ==> root !in WATCH_ROOTS && root != ""
  {}

  /**
   * The store has something to do: the mutation is well formed and new, and while syncing not
   * buffered yet, or otherwise either ahead of its turn or one that passes its checks.
   */
  predicate Acts(s: Store, m: Message) {
    var revision := AsU64(Member(m.payload, "revision"));
    && Validates(m) && IsMutation(m.kind) && revision.Some? && revision.value > s.revision
    && if s.syncing then revision.value !in s.buffered else revision.value == s.revision + 1 ==> Takes(s.state, m)
  }

  /** Exactly then does a message change the store. */
  lemma ActsIff(s: Store, m: Message)
    ensures Apply(s, m).1 != s <==> Acts(s, m)
  {
    AppliesIff(s.state, m);
    hide ApplyCurrent, Takes, Validates;
    var revision := AsU64(Member(m.payload, "revision"));
    if revision.Some? {
      assert revision.value in s.buffered[revision.value := m];
    }
  }

  /** The tree after the buffered messages of a run are written in order. */
  function Upto(state: Json, buffered: map<U64, Message>, first: U64, last: U64): Json
    requires first <= last && HasRun(buffered, first, last)
    decreases last - first
  {
    if first == last then state
    else
      var before := Upto(state, buffered, first, last - 1);
      var written := ApplyCurrent(before, buffered[last]);
      if written.Some? then written.value else before
  }

  /** Every message of the run up to `last` passes the checks, on the tree the ones before it leave. */
  predicate RunTakes(state: Json, buffered: map<U64, Message>, first: U64, last: U64)
    requires first <= last && HasRun(buffered, first, last)
  {
    forall k: U64 :: first < k <= last ==> Takes(Upto(state, buffered, first, k - 1), buffered[k])
  }

  lemma {:induction false} UptoFront(state: Json, buffered: map<U64, Message>, first: U64, last: U64, next: Json)
    requires first < last && HasRun(buffered, first, last) && ApplyCurrent(state, buffered[first + 1]) == Some(next)
    ensures Upto(state, buffered, first, last) == Upto(next, buffered, first + 1, last)
    decreases last - first
  {
    if first + 1 == last {
      assert Upto(state, buffered, first, first) == state;
    } else {
      UptoFront(state, buffered, first, last - 1, next);
    }
  }

  /**
   * What replay does to a store that holds what lies ahead in `buffered`: how far it gets, what
   * it writes, what it leaves, and why it stops.
   */
  predicate Replayed(s: Store, buffered: map<U64, Message>, outcome: Outcome<()>, after: Store) {
    && s.revision <= after.revision && HasRun(buffered, s.revision, after.revision)
    && after.state == Upto(s.state, buffered, s.revision, after.revision)
    && RunTakes(s.state, buffered, s.revision, after.revision)
    && after.syncing == s.syncing
    && StopsThere(buffered, outcome, after)
  }

  /** The three ways to stop: out of revisions, at a gap, or at a message that is refused and dropped. */
  predicate StopsThere(buffered: map<U64, Message>, outcome: Outcome<()>, after: Store) {
    if after.revision == U64_MAX then outcome == Err(Overflow) && after.buffered == map[]
    else
      var r: U64 := after.revision + 1;
      if r !in buffered then outcome == Ok(()) && after.buffered == Retained(buffered, after.revision)
      else outcome == Err(Invalid) && !Takes(after.state, buffered[r]) && after.buffered == Retained(buffered, r)
  }

  lemma {:induction false} ReplaySpec(s: Store, buffered: map<U64, Message>)
    requires s.buffered == Retained(buffered, s.revision)
    ensures Replayed(s, buffered, Replay(s).0, Replay(s).1)
    decreases U64_MAX - s.revision
  {
    hide ApplyCurrent, Takes;
    if s.revision == U64_MAX {
    } else if s.revision + 1 !in buffered {
      assert s.revision + 1 !in s.buffered;
    } else {
      var r: U64 := s.revision + 1;
      assert r in s.buffered;
      AppliesIff(s.state, buffered[r]);
      var next := ApplyCurrent(s.state, buffered[r]);
      assert s.buffered - {r} == Retained(buffered, r);
      if next.Some? {
        var rest := s.(buffered := s.buffered - {r}, state := next.value, revision := r);
        ReplaySpec(rest, buffered);
        RunFront(s.state, buffered, s.revision, Replay(rest).1.revision, next.value);
      }
    }
  }

  lemma UptoNothing(state: Json, buffered: map<U64, Message>, first: U64)
    ensures Upto(state, buffered, first, first) == state
  {}

  /** One message more at the front of a run. */
  lemma RunFront(state: Json, buffered: map<U64, Message>, first: U64, last: U64, next: Json)
    requires first < last && first + 1 in buffered && HasRun(buffered, first + 1, last)
    requires ApplyCurrent(state, buffered[first + 1]) == Some(next) && Takes(state, buffered[first + 1])
    requires RunTakes(next, buffered, first + 1, last)
    ensures HasRun(buffered, first, last) && RunTakes(state, buffered, first, last)
    ensures Upto(state, buffered, first, last) == Upto(next, buffered, first + 1, last)
  {
    hide ApplyCurrent, Takes, Upto;
    forall k: U64 | first < k <= last
      ensures Takes(Upto(state, buffered, first, k - 1), buffered[k])
    {
      if k == first + 1 {
        UptoNothing(state, buffered, first);
      } else {
        UptoFront(state, buffered, first, k - 1, next);
      }
    }
    UptoFront(state, buffered, first, last, next);
  }

  /** A snapshot with its revision and a state object. */
  predicate WellFormed(m: Message) {
    m.kind == SyncResponse && Validates(m) && AsU64(Some(m.payload["revision"])).Some? && m.payload["state"].Obj?
  }

  function RevisionOf(m: Message): U64
    requires WellFormed(m)
  {
    m.payload["revision"].value
  }

  function TreeOf(m: Message): Json
    requires WellFormed(m)
  {
    m.payload["state"]
  }

  lemma InstallIsReplay(s: Store, m: Message)
    requires WellFormed(m)
    ensures var (outcome, after) := Replay(Seated(s, RevisionOf(m), TreeOf(m)));
            && InstallSnapshot(s, m) == (outcome, if outcome.Err? then after else after.(syncing := HasGap(after)))
            && Replayed(Seated(s, RevisionOf(m), TreeOf(m)), s.buffered, outcome, after)
  {
    ReplaySpec(Seated(s, RevisionOf(m), TreeOf(m)), s.buffered);
  }

  /** The run after `first` stops short of the last revision and each of its messages passes its checks in turn. */
  ghost predicate WholeRunTakes(state: Json, buffered: map<U64, Message>, first: U64) {
    && !HasRun(buffered, first, U64_MAX)
    && forall k: U64 :: k > first && HasRun(buffered, first, k) ==>
         Takes(Upto(state, buffered, first, k - 1), buffered[k])
  }

  lemma StopDecides(s: Store, buffered: map<U64, Message>, outcome: Outcome<()>, after: Store)
    requires Replayed(s, buffered, outcome, after)
    ensures outcome.Ok? <==> WholeRunTakes(s.state, buffered, s.revision)
  {
    hide Takes, Upto;
    if after.revision < U64_MAX {
      var r: U64 := after.revision + 1;
      if r in buffered {
        assert HasRun(buffered, s.revision, r);
        assert Upto(s.state, buffered, s.revision, r - 1) == after.state;
      } else {
        assert forall k: U64 :: k > s.revision && HasRun(buffered, s.revision, k) ==> k <= after.revision;
      }
    }
  }

  /** A well-formed snapshot installs exactly when the whole run of buffered messages after it can be applied. */
  lemma InstallOkIff(s: Store, m: Message)
    requires WellFormed(m)
    ensures InstallSnapshot(s, m).0.Ok? <==> WholeRunTakes(TreeOf(m), s.buffered, RevisionOf(m))
  {
    hide Replay, InstallSnapshot, WholeRunTakes, Replayed;
    InstallIsReplay(s, m);
    var seated := Seated(s, RevisionOf(m), TreeOf(m));
    StopDecides(seated, s.buffered, Replay(seated).0, Replay(seated).1);
  }

  /**
   * A refused message leaves the store in between, always: the snapshot is in place with the run
   * before that message written over it, the message is gone from the buffer, and syncing is as
   * it was.
   */
  lemma FailedInstallIsNotAtomic(s: Store, m: Message)
    requires WellFormed(m) && InstallSnapshot(s, m).0 == Err(Invalid)
    ensures var after := InstallSnapshot(s, m).1;
            && Replayed(Seated(s, RevisionOf(m), TreeOf(m)), s.buffered, Err(Invalid), after)
            && after.revision + 1 in s.buffered && after.revision + 1 !in after.buffered
            && after != s
  {
    hide Replay, InstallSnapshot, RunTakes, Upto, Takes;
    InstallIsReplay(s, m);
  }

  /**
   * So does a run that reaches the last revision: all of it is written over the snapshot and
   * taken from the buffer, and syncing is as it was.
   */
  lemma OverflowLeaves(s: Store, m: Message)
    requires WellFormed(m)
    ensures InstallSnapshot(s, m).0 == Err(Overflow) <==>
            HasRun(s.buffered, RevisionOf(m), U64_MAX) && RunTakes(TreeOf(m), s.buffered, RevisionOf(m), U64_MAX)
    ensures InstallSnapshot(s, m).0 == Err(Overflow) ==>
              InstallSnapshot(s, m).1 ==
              Store(Upto(TreeOf(m), s.buffered, RevisionOf(m), U64_MAX), U64_MAX, s.syncing, map[])
  {
    hide Replay, InstallSnapshot, Upto, Takes;
    InstallIsReplay(s, m);
    var seated := Seated(s, RevisionOf(m), TreeOf(m));
    OverflowStops(seated, s.buffered, Replay(seated).0, Replay(seated).1);
  }

  lemma OverflowStops(s: Store, buffered: map<U64, Message>, outcome: Outcome<()>, after: Store)
    requires Replayed(s, buffered, outcome, after)
    ensures outcome == Err(Overflow) <==>
            HasRun(buffered, s.revision, U64_MAX) && RunTakes(s.state, buffered, s.revision, U64_MAX)
  {
    hide Takes, Upto;
    if after.revision < U64_MAX && HasRun(buffered, s.revision, U64_MAX) {
      var r: U64 := after.revision + 1;
      assert r in buffered;
      assert Upto(s.state, buffered, s.revision, r - 1) == after.state;
    }
  }

  /**
   * While syncing, only the revision of a mutation is looked at: one that can never be applied,
   * because its path is not the host's, is buffered like any other, and then no snapshot whose
   * run reaches it can be installed.
   */
  lemma ForeignPathBlocksSnapshot(s: Store, m: Message, snapshot: Message)
    requires s.syncing && Validates(m) && IsMutation(m.kind) && AsU64(Member(m.payload, "revision")).Some?
    requires m.payload["path"].Str? && !HostPath(m.payload["path"].text, false)
    requires m.payload["revision"].value > s.revision && m.payload["revision"].value !in s.buffered
    ensures var r: U64 := m.payload["revision"].value;
            var held := s.(buffered := s.buffered[r := m]);
            && Apply(s, m) == (Ok(Buffered), held)
            && (WellFormed(snapshot) && RevisionOf(snapshot) < r && HasRun(held.buffered, RevisionOf(snapshot), r) ==>
                  InstallSnapshot(held, snapshot).0.Err?)
  {
    var r: U64 := m.payload["revision"].value;
    var held := s.(buffered := s.buffered[r := m]);
    if WellFormed(snapshot) && RevisionOf(snapshot) < r && HasRun(held.buffered, RevisionOf(snapshot), r) {
      InstallOkIff(held, snapshot);
      assert !Takes(Upto(TreeOf(snapshot), held.buffered, RevisionOf(snapshot), r - 1), held.buffered[r]);
    }
  }
}
