/** The bundled host: what it answers to requests, and which revisions its patches carry. */
module HostServer {
  import opened Integers
  import opened WatchParse
  import opened ReplicationLaws

  datatype Packet = Patch(mutation: Mutation) | Snapshot

  /** The patches of revisions `first + 1` to `last`. */
  function Patches(h: History, first: nat, last: nat): (p: seq<Packet>)
    requires first <= last <= |h.log| <= U64_MAX
    ensures |p| == last - first
    decreases last - first
  {
    if first == last then [] else [Patch(Mutation(first + 1, h.log[first]))] + Patches(h, first + 1, last)
  }

  predicate Serves(h: History) {
    1 <= |h.log| <= U64_MAX
  }

  /** The host's answer to a request for a snapshot. */
  function Reply(h: History): seq<Packet>
    requires Serves(h)
  {
    Patches(h, 0, 1) + [Snapshot] + Patches(h, 1, |h.log|)
  }

  lemma {:induction false} PatchesSplit(h: History, first: nat, middle: nat, last: nat)
    requires first <= middle <= last <= |h.log| <= U64_MAX
    ensures Patches(h, first, last) == Patches(h, first, middle) + Patches(h, middle, last)
    decreases middle - first
  {
    if first < middle {
      PatchesSplit(h, first + 1, middle, last);
    }
  }

  /** A request for a snapshot, an action that is accepted, or one that is refused. */
  datatype Request = AskSnapshot | AskAction(playing: bool) | AskRefused

  /** The last revision sent, after the connection has answered a request. */
  function RevisionAfter(h: History, current: nat, r: Request): nat {
    match r
    case AskSnapshot => |h.log|
    case AskAction(_) => current + 1
    case AskRefused => current
  }

  /** The revisions of the patches sent for the actions among these requests. */
  function ActionRevisions(h: History, current: nat, requests: seq<Request>): seq<nat>
    decreases |requests|
  {
    if requests == [] then []
    else
      var next := RevisionAfter(h, current, requests[0]);
      (if requests[0].AskAction? then [next] else []) + ActionRevisions(h, next, requests[1..])
  }

  /** What those actions ask for. */
  function Choices(requests: seq<Request>): seq<bool> {
    if requests == [] then []
    else (if requests[0].AskAction? then [requests[0].playing] else []) + Choices(requests[1..])
  }

  /** One connection of the host: the ids it has used and the last revision it has sent. */
  class HostConnection {
    const history: History
    var nextId: nat
    var currentRevision: nat

    constructor (history: History)
      requires Serves(history)
      ensures this.history == history && nextId == 1 && currentRevision == 0
    {
      this.history := history;
      nextId, currentRevision := 1, 0;
    }

    /** The branch for a snapshot request: every packet goes out under the next id. */
    method AnswerSyncRequest() returns (sent: seq<(nat, Packet)>)
      requires Serves(history)
      modifies this
      ensures |sent| == |Reply(history)| && nextId == old(nextId) + |sent|
      ensures forall i :: 0 <= i < |sent| ==> sent[i] == (old(nextId) + i, Reply(history)[i])
      ensures currentRevision == RevisionAfter(history, old(currentRevision), AskSnapshot)
    {
      var updates := Patches(history, 0, |history.log|);
      PatchesSplit(history, 0, 1, |history.log|);
      sent := [(nextId, updates[0])];
      nextId := nextId + 1;
      sent := sent + [(nextId, Snapshot)];
      nextId := nextId + 1;
      var first := nextId;
      for i := 1 to |updates|
        invariant nextId == first + i - 1 && |sent| == i + 1
        invariant forall k :: 0 <= k < |sent| ==> sent[k] == (old(nextId) + k, Reply(history)[k])
      {
        sent := sent + [(nextId, updates[i])];
        nextId := nextId + 1;
      }
      currentRevision := |history.log|;
    }

    /** The branch for an accepted action: a result, then the authoritative patch at the next revision. */
    method AnswerAction(playing: bool) returns (resultId: nat, patchId: nat, patch: Packet)
      requires currentRevision < U64_MAX
      modifies this
      ensures resultId == old(nextId) && patchId == resultId + 1 && nextId == patchId + 1
      ensures currentRevision == RevisionAfter(history, old(currentRevision), AskAction(playing))
      ensures patch == Patch(Mutation(currentRevision, Playing(playing)))
    {
      resultId := nextId;
      nextId := nextId + 1;
      currentRevision := currentRevision + 1;
      patchId := nextId;
      patch := Patch(Mutation(currentRevision, Playing(playing)));
      nextId := nextId + 1;
    }

    /** The branch for a refused action: a result and nothing else. */
    method AnswerRefused() returns (resultId: nat)
      modifies this
      ensures resultId == old(nextId) && nextId == resultId + 1
      ensures currentRevision == RevisionAfter(history, old(currentRevision), AskRefused)
    {
      resultId := nextId;
      nextId := nextId + 1;
    }

    /** The connection loop over its requests, with the patches it sends for actions. */
    method HandleRequests(requests: seq<Request>) returns (revisions: seq<nat>, flags: seq<bool>)
      requires Serves(history) && currentRevision + |requests| <= U64_MAX && |history.log| + |requests| <= U64_MAX
      modifies this
      ensures revisions == ActionRevisions(history, old(currentRevision), requests)
      ensures flags == Choices(requests)
    {
      hide ActionRevisions, Choices, Reply;
      revisions, flags := [], [];
      NoRequests(history, currentRevision);
      for i := 0 to |requests|
        invariant currentRevision + |requests| - i <= U64_MAX
        invariant ActionRevisions(history, old(currentRevision), requests) ==
                  revisions + ActionRevisions(history, currentRevision, requests[i..])
        invariant Choices(requests) == flags + Choices(requests[i..])
      {
        ghost var current := currentRevision;
        assert requests[i..] == [requests[i]] + requests[i + 1..];
        AnswerFirst(history, current, requests[i], requests[i + 1..], revisions, flags);
        match requests[i]
        case AskSnapshot =>
          var _ := AnswerSyncRequest();
        case AskAction(playing) =>
          var _, _, patch := AnswerAction(playing);
          revisions := revisions + [patch.mutation.revision];
          flags := flags + [patch.mutation.change.flag];
        case AskRefused =>
          var _ := AnswerRefused();
      }
      assert requests[|requests|..] == [];
      NoRequests(history, currentRevision);
      assert revisions + [] == revisions && flags + [] == flags;
    }
  }

  lemma NoRequests(h: History, current: nat)
    ensures ActionRevisions(h, current, []) == [] && Choices([]) == []
  {}

  /** One request, after those that have given these revisions and flags. */
  lemma AnswerFirst(
    h: History, current: nat, r: Request, later: seq<Request>, revisions: seq<nat>, flags: seq<bool>)
    ensures var next := RevisionAfter(h, current, r);
            revisions + ActionRevisions(h, current, [r] + later) ==
            (if r.AskAction? then revisions + [next] else revisions) + ActionRevisions(h, next, later)
    ensures flags + Choices([r] + later) == (if r.AskAction? then flags + [r.playing] else flags) + Choices(later)
  {
    assert ([r] + later)[1..] == later;
    var next := RevisionAfter(h, current, r);
    var rest := ActionRevisions(h, next, later);
    assert ActionRevisions(h, current, [r] + later) == (if r.AskAction? then [next] else []) + rest;
    assert Choices([r] + later) == (if r.AskAction? then [r.playing] else []) + Choices(later);
    hide ActionRevisions, Choices;
    if r.AskAction? {
      assert revisions + ([next] + rest) == (revisions + [next]) + rest;
      assert flags + ([r.playing] + Choices(later)) == (flags + [r.playing]) + Choices(later);
    } else {
      assert [] + rest == rest && [] + Choices(later) == Choices(later);
    }
  }

  // ---------- when the revisions of actions increase ----------

  predicate HasAction(requests: seq<Request>) {
    requests != [] && (requests[0].AskAction? || HasAction(requests[1..]))
  }

  /** Some snapshot request comes before an action. */
  predicate SnapshotThenAction(requests: seq<Request>) {
    requests != [] &&
    ((requests[0].AskSnapshot? && HasAction(requests[1..])) || SnapshotThenAction(requests[1..]))
  }

  /** No snapshot request comes between two actions. */
  predicate NoneBetween(requests: seq<Request>) {
    requests == [] ||
    (NoneBetween(requests[1..]) && (requests[0].AskAction? ==> !SnapshotThenAction(requests[1..])))
  }

  /** The first request that is not refused is for a snapshot. */
  predicate SnapshotFirst(requests: seq<Request>) {
    requests != [] && (requests[0].AskSnapshot? || (requests[0].AskRefused? && SnapshotFirst(requests[1..])))
  }

  /** Where the first patch for an action starts from. */
  lemma {:induction false} FirstActionRevision(h: History, current: nat, requests: seq<Request>)
    ensures HasAction(requests) <==> ActionRevisions(h, current, requests) != []
    ensures HasAction(requests) ==>
              ActionRevisions(h, current, requests)[0] == 1 + if SnapshotFirst(requests) then |h.log| else current
    decreases |requests|
  {
    if requests == [] {
    } else {
      var rest := ActionRevisions(h, RevisionAfter(h, current, requests[0]), requests[1..]);
      FirstActionRevision(h, RevisionAfter(h, current, requests[0]), requests[1..]);
      assert [] + rest == rest;
    }
  }

  lemma {:induction false} SnapshotThenActionHasAction(requests: seq<Request>)
    requires SnapshotThenAction(requests)
    ensures HasAction(requests)
  {
    if requests[0].AskSnapshot? && HasAction(requests[1..]) {
    } else {
      SnapshotThenActionHasAction(requests[1..]);
    }
  }

  /** With none between, a snapshot request before some action is one before all of them. */
  lemma {:induction false} SnapshotFirstIff(requests: seq<Request>)
    requires NoneBetween(requests) && HasAction(requests)
    ensures SnapshotThenAction(requests) <==> SnapshotFirst(requests)
  {
    if requests[0].AskSnapshot? {
    } else if requests[0].AskAction? {
    } else {
      SnapshotFirstIff(requests[1..]);
    }
  }

  /** One revision more at the front. */
  lemma IncreasingFront(first: nat, rest: seq<nat>)
    ensures Increasing([first] + rest) <==> Increasing(rest) && (rest == [] || first < rest[0])
  {
    var all := [first] + rest;
    assert forall i :: 0 <= i < |rest| ==> rest[i] == all[i + 1];
    if Increasing(rest) && (rest == [] || first < rest[0]) {
      assert forall i :: 0 <= i < |rest| ==> first < rest[i];
    }
    if Increasing(all) {
      assert rest != [] ==> all[0] < all[1];
      forall i, j | 0 <= i < j < |rest|
        ensures rest[i] < rest[j]
      {
        assert all[i + 1] < all[j + 1];
      }
    }
  }

  /** Once past the end of the log, any snapshot request between two actions takes the revisions back. */
  lemma {:induction false} PastLogIncreaseIff(h: History, current: nat, requests: seq<Request>)
    requires current >= |h.log|
    ensures Increasing(ActionRevisions(h, current, requests)) <==> NoneBetween(requests)
    decreases |requests|
  {
    hide Increasing;
    if requests == [] {
      NothingIncreases();
    } else {
      var next := RevisionAfter(h, current, requests[0]);
      var rest := ActionRevisions(h, next, requests[1..]);
      PastLogIncreaseIff(h, next, requests[1..]);
      assert [] + rest == rest;
      if requests[0].AskAction? {
        IncreasingFront(next, rest);
        FirstActionRevision(h, next, requests[1..]);
        if SnapshotThenAction(requests[1..]) {
          SnapshotThenActionHasAction(requests[1..]);
        }
        if HasAction(requests[1..]) && NoneBetween(requests[1..]) {
          SnapshotFirstIff(requests[1..]);
        }
      }
    }
  }

  lemma NothingIncreases()
    ensures Increasing([])
  {}

  /** How many actions come before the first snapshot request. */
  function LeadingActions(requests: seq<Request>): nat {
    if requests == [] || requests[0].AskSnapshot? then 0
    else (if requests[0].AskAction? then 1 else 0) + LeadingActions(requests[1..])
  }

  /** What comes from the first snapshot request on. */
  function FromSnapshot(requests: seq<Request>): seq<Request> {
    if requests == [] || requests[0].AskSnapshot? then requests else FromSnapshot(requests[1..])
  }

  lemma {:induction false} LeadingFacts(requests: seq<Request>)
    ensures HasAction(requests) <==> LeadingActions(requests) > 0 || HasAction(FromSnapshot(requests))
    ensures SnapshotFirst(requests) ==> LeadingActions(requests) == 0
    ensures HasAction(requests) && !SnapshotFirst(requests) ==> LeadingActions(requests) > 0
  {
    if requests == [] || requests[0].AskSnapshot? {
    } else {
      LeadingFacts(requests[1..]);
    }
  }

  /**
   * Answering a snapshot request sets the count to the end of the log. So among the actions after
   * the first one no other may come in between, and the first one may come in between only if the
   * actions before it have not got past the end of the log.
   */
  predicate KeepsIncreasing(h: History, current: nat, requests: seq<Request>) {
    var n, later := LeadingActions(requests), FromSnapshot(requests);
    NoneBetween(later) && (n > 0 && HasAction(later) ==> current + n <= |h.log|)
  }

  /** On every connection, from every count, this is exactly when actions get increasing revisions. */
  lemma {:induction false} ActionRevisionsIncreaseIff(h: History, current: nat, requests: seq<Request>)
    ensures Increasing(ActionRevisions(h, current, requests)) <==> KeepsIncreasing(h, current, requests)
    decreases |requests|
  {
    hide Increasing;
    if requests == [] {
      NothingIncreases();
    } else {
      var next := RevisionAfter(h, current, requests[0]);
      var rest := ActionRevisions(h, next, requests[1..]);
      assert [] + rest == rest;
      if requests[0].AskSnapshot? {
        PastLogIncreaseIff(h, next, requests[1..]);
      } else {
        ActionRevisionsIncreaseIff(h, next, requests[1..]);
        if requests[0].AskAction? {
          IncreasingFront(next, rest);
          FirstActionRevision(h, next, requests[1..]);
          LeadingFacts(requests[1..]);
        }
      }
    }
  }

  /** A fresh connection counts from zero. */
  lemma FreshConnectionIncreasesIff(h: History, requests: seq<Request>)
    requires Serves(h)
    ensures var n, later := LeadingActions(requests), FromSnapshot(requests);
            Increasing(ActionRevisions(h, 0, requests)) <==> NoneBetween(later) && (HasAction(later) ==> n <= |h.log|)
  {
    ActionRevisionsIncreaseIff(h, 0, requests);
  }
}
