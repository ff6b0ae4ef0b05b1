/** The one optimistic action of the watch: begin, confirm, roll back. */
module WatchActions {
  import opened Integers
  import opened WatchModel
  import opened Wire

  const ACTION_TIMEOUT_MS := 5000
  const FEEDBACK_CAPACITY := 32
  const NEEDLE_CAPACITY := 32

  datatype Actions = Actions(pending: bool, previousPlaying: bool, messageId: U32, startedAt: U64)

  const IDLE := Actions(false, false, 0, 0)

  function WithFeedback(s: State, feedback: string): State {
    s.(feedback := Truncate(feedback, FEEDBACK_CAPACITY))
  }

  /** A tap flips the local state and remembers the value to go back to; one action at a time. */
  function Begin(a: Actions, s: State, now: U64): Option<(Actions, State)> {
    if a.pending then None
    else
      Some((Actions(true, s.host.playing, 0, now),
            WithFeedback(s.(host := s.host.(playing := !s.host.playing), actionPending := true), "SYNCING ACTION")))
  }

  function Fail(a: Actions, s: State, feedback: string): (Actions, State) {
    if !a.pending then (a, s)
    else
      (a.(pending := false),
       WithFeedback(s.(host := s.host.(playing := a.previousPlaying), actionPending := false), feedback))
  }

  function Confirm(a: Actions, s: State): (Actions, State) {
    (a.(pending := false), WithFeedback(s.(actionPending := false), "HOST CONFIRMED"))
  }

  /** Whether the reply is for the pending action. */
  predicate Answered(a: Actions, m: Message) {
    a.pending && m.kind == CommandResult && m.replyTo == Some(a.messageId)
  }

  function HandleResult(a: Actions, s: State, m: Message): (Actions, State) {
    if !Answered(a, m) then (a, s)
    else if HasStatus(m.raw, "ok") then Confirm(a, s)
    else Fail(a, s, "ACTION REJECTED")
  }

  predicate TimedOut(a: Actions, now: U64) {
    a.pending && WrapSub64(now, a.startedAt) >= ACTION_TIMEOUT_MS
  }

  function PollTimeout(a: Actions, s: State, now: U64): (Actions, State) {
    if TimedOut(a, now) then Fail(a, s, "ACTION TIMEOUT") else (a, s)
  }

  // ---------- the search for the status ----------

  predicate OccursAt(needle: string, text: string, i: nat) {
    i + |needle| <= |text| && text[i..i + |needle|] == needle
  }

  predicate Occurs(needle: string, text: string) {
    exists i | 0 <= i <= |text| :: OccursAt(needle, text, i)
  }

  function Needle(status: string): string {
    "\"status\":\"" + status + "\""
  }

  predicate HasStatus(text: string, status: string) {
    |status| + 12 < NEEDLE_CAPACITY && Occurs(Needle(status), text)
  }

  /** A status is found exactly when it is short enough and its quoted member is part of the text. */
  lemma StatusFoundIff(text: string, status: string)
    ensures HasStatus(text, status) <==>
            |status| < 20 &&
            exists before: string, after: string :: text == before + ("\"status\":\"" + status + "\"") + after
  {
    var needle := Needle(status);
    if Occurs(needle, text) {
      var i :| 0 <= i <= |text| && OccursAt(needle, text, i);
      assert text == text[..i] + needle + text[i + |needle|..];
    }
    if before: string, after: string :| text == before + needle + after {
      assert text[|before|..|before| + |needle|] == needle;
      assert OccursAt(needle, text, |before|);
    }
  }

  /** The search is on the text of the payload, not on its members. */
  method PayloadContainsStatus(text: string, status: string) returns (found: bool)
    ensures found == HasStatus(text, status)
  {
    if |status| + 12 >= NEEDLE_CAPACITY {
      return false;
    }
    var needle := Needle(status);
    if |needle| > |text| {
      return false;
    }
    var index := 0;
    while index + |needle| <= |text|
      invariant index <= |text|
      invariant forall i :: 0 <= i < index ==> !OccursAt(needle, text, i)
    {
      if text[index..index + |needle|] == needle {
        assert OccursAt(needle, text, index);
        return true;
      }
      index := index + 1;
    }
    return false;
  }

  /** A command result as the host's serializer writes it: members in alphabetical order, no spaces. */
  function CompactResult(code: string, status: string): string {
    "{\"code\":\"" + code + "\",\"status\":\"" + status + "\"}"
  }

  class WatchActions {
    var pending: bool
    var previousMusicPlaying: bool
    var messageId: U32
    var startedAtMs: U64

    function View(): Actions
      reads this
    {
      Actions(pending, previousMusicPlaying, messageId, startedAtMs)
    }

    constructor ()
      ensures View() == IDLE
    {
      pending, previousMusicPlaying, messageId, startedAtMs := false, false, 0, 0;
    }

    method BeginMusic(state: WatchState, now: U64) returns (begun: bool)
      modifies this, state
      ensures begun == Begin(old(View()), old(state.View()), now).Some?
      ensures (View(), state.View()) ==
              if begun then Begin(old(View()), old(state.View()), now).value else (old(View()), old(state.View()))
    {
      if pending {
        return false;
      }
      pending := true;
      previousMusicPlaying := state.host.playing;
      messageId := 0;
      startedAtMs := now;
      state.host := state.host.(playing := !state.host.playing);
      state.musicActionPending := true;
      state.musicActionFeedback := Truncate("SYNCING ACTION", FEEDBACK_CAPACITY);
      return true;
    }

    method BindMessage(id: U32)
      modifies this
      ensures View() == old(View()).(messageId := id)
    {
      messageId := id;
    }

    method FailPending(state: WatchState, feedback: string)
      modifies this, state
      ensures (View(), state.View()) == Fail(old(View()), old(state.View()), feedback)
    {
      if !pending {
        return;
      }
      state.host := state.host.(playing := previousMusicPlaying);
      state.musicActionPending := false;
      state.musicActionFeedback := Truncate(feedback, FEEDBACK_CAPACITY);
      pending := false;
    }

    method Reconcile(state: WatchState, m: Message) returns (handled: bool)
      modifies this, state
      ensures handled == Answered(old(View()), m)
      ensures (View(), state.View()) == HandleResult(old(View()), old(state.View()), m)
    {
      if !pending || m.kind != CommandResult || m.replyTo != Some(messageId) {
        return false;
      }
      var ok := PayloadContainsStatus(m.raw, "ok");
      if ok {
        state.musicActionPending := false;
        state.musicActionFeedback := Truncate("HOST CONFIRMED", FEEDBACK_CAPACITY);
        pending := false;
      } else {
        FailPending(state, "ACTION REJECTED");
      }
      return true;
    }

    method Poll(state: WatchState, now: U64) returns (failed: bool)
      modifies this, state
      ensures failed == TimedOut(old(View()), now)
      ensures (View(), state.View()) == PollTimeout(old(View()), old(state.View()), now)
    {
      if !pending || WrapSub64(now, startedAtMs) < ACTION_TIMEOUT_MS {
        return false;
      }
      FailPending(state, "ACTION TIMEOUT");
      return true;
    }
  }

  /** With a clock that does not run backwards, the timeout test is exact. */
  lemma TimeoutExact(a: Actions, s: State, now: U64)
    requires a.pending && now >= a.startedAt
    ensures TimedOut(a, now) <==> now - a.startedAt >= ACTION_TIMEOUT_MS
    ensures now - a.startedAt >= ACTION_TIMEOUT_MS ==> !PollTimeout(a, s, now).0.pending
  {}

  /** A clock that runs backwards by any amount up to 2^64 - 5000 times the action out at once. */
  lemma BackwardsClockTimesOut(a: Actions, now: U64)
    requires a.pending && now < a.startedAt
    ensures TimedOut(a, now) <==> a.startedAt - now <= U64_MAX + 1 - ACTION_TIMEOUT_MS
  {}

  /**
   * On the host's own results the text search is exact: it finds the status if and only if the
   * status member is that one, whatever the code is, as long as neither contains a quote.
   */
  lemma SearchExactOnHostResults(code: string, status: string)
    requires '\"' !in code && '\"' !in status
    ensures HasStatus(CompactResult(code, status), "ok") <==> status == "ok"
  {
    var text := CompactResult(code, status);
    var needle := Needle("ok");
    var key := 11 + |code|;
    assert text == "{\"code\":\"" + code + "\",\"status\":\"" + status + "\"}";
    assert text[9..9 + |code|] == code;
    assert text[key - 2..key + 10] == "\",\"status\":\"";
    assert text[key + 10..key + 10 + |status|] == status;
    assert text[key + 10 + |status|..] == "\"}";
    if status == "ok" {
      assert text[key..key + 13] == needle;
      assert OccursAt(needle, text, key);
    }
    if Occurs(needle, text) {
      var i :| 0 <= i <= |text| && OccursAt(needle, text, i);
      OnlyAtKey(code, status, text, i);
    }
  }

  /** The characters an occurrence fixes. */
  lemma NeedleChars(text: string, i: nat)
    requires OccursAt(Needle("ok"), text, i)
    ensures i + 13 <= |text|
    ensures text[i] == '\"' && text[i + 1] == 's' && text[i + 7] == '\"' && text[i + 8] == ':'
    ensures text[i + 10] == 'o' && text[i + 11] == 'k' && text[i + 12] == '\"'
  {
    assert Needle("ok") == "\"status\":\"ok\"";
    var window := text[i..i + 13];
    assert window == "\"status\":\"ok\"";
    assert forall k :: 0 <= k < 13 ==> text[i + k] == window[k];
    assert window[0] == '\"' && window[1] == 's' && window[7] == '\"' && window[8] == ':';
    assert window[10] == 'o' && window[11] == 'k' && window[12] == '\"';
    assert text[i + 0] == window[0];
  }

  /** Where the parts of a result lie in its text. */
  predicate LaidOut(text: string, code: string, status: string) {
    var c, t := |code|, |status|;
    && |text| == 23 + c + t
    && text[0] == '{' && text[2] == 'c' && text[3] == 'o' && text[4] == 'd' && text[5] == 'e' && text[7] == ':'
    && (forall k :: 9 <= k < 9 + c ==> text[k] == code[k - 9])
    && text[10 + c] == ',' && text[19 + c] == ':'
    && (forall k :: 21 + c <= k < 21 + c + t ==> text[k] == status[k - 21 - c])
    && text[12 + c] == 's' && text[13 + c] == 't' && text[14 + c] == 'a' && text[15 + c] == 't'
    && text[16 + c] == 'u' && text[17 + c] == 's'
    && text[21 + c + t] == '\"' && text[22 + c + t] == '}'
  }

  lemma Parts(a: string, b: string, m: string, d: string, z: string, text: string)
    requires text == a + b + m + d + z
    ensures |text| == |a| + |b| + |m| + |d| + |z|
    ensures forall k :: 0 <= k < |a| ==> text[k] == a[k]
    ensures forall k :: |a| <= k < |a| + |b| ==> text[k] == b[k - |a|]
    ensures forall k :: |a| + |b| <= k < |a| + |b| + |m| ==> text[k] == m[k - |a| - |b|]
    ensures forall k :: |a| + |b| + |m| <= k < |text| - |z| ==> text[k] == d[k - |a| - |b| - |m|]
    ensures forall k :: |text| - |z| <= k < |text| ==> text[k] == z[k - (|text| - |z|)]
  {}

  lemma ResultLayout(code: string, status: string)
    ensures LaidOut(CompactResult(code, status), code, status)
  {
    var text := CompactResult(code, status);
    var open, middle, close := "{\"code\":\"", "\",\"status\":\"", "\"}";
    Parts(open, code, middle, status, close, text);
    assert open[0] == '{' && open[2] == 'c' && open[3] == 'o' && open[4] == 'd' && open[5] == 'e' && open[7] == ':';
    assert middle[1] == ',' && middle[3] == 's' && middle[4] == 't' && middle[5] == 'a' && middle[6] == 't';
    assert middle[7] == 'u' && middle[8] == 's' && middle[10] == ':';
    assert close[0] == '\"' && close[1] == '}';
  }

  lemma OnlyAtKey(code: string, status: string, text: string, i: nat)
    requires '\"' !in code && '\"' !in status && text == CompactResult(code, status)
    requires OccursAt(Needle("ok"), text, i)
    ensures status == "ok"
  {
    ResultLayout(code, status);
    NeedleChars(text, i);
    hide *;
    KeyPosition(text, code, status, i);
  }

  /** The only place whose quotes, colon and first letter fit is where the status member begins. */
  lemma KeyPosition(text: string, code: string, status: string, i: nat)
    requires '\"' !in code && '\"' !in status && LaidOut(text, code, status) && i + 13 <= |text|
    requires text[i] == '\"' && text[i + 1] == 's' && text[i + 7] == '\"' && text[i + 8] == ':'
    requires text[i + 10] == 'o' && text[i + 11] == 'k' && text[i + 12] == '\"'
    ensures i == 11 + |code| && |status| == 2 && status[0] == 'o' && status[1] == 'k'
  {
    var c, t := |code|, |status|;
    assert forall k :: 9 <= k < 9 + c ==> text[k] != '\"';
    assert forall k :: 21 + c <= k < 21 + c + t ==> text[k] != '\"';
    assert i == 11 + c;
    assert text[21 + c] == 'o' && text[22 + c] == 'k' && text[23 + c] == '\"';
  }
}
