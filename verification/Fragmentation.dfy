/**
 * From received bytes to the state of the watch: how the stream is cut does not show, and what
 * the watch does with it is a run of the transition system.
 */
module Fragmentation {
  import opened Integers
  import opened Wire
  import opened Lines
  import C = WatchCache
  import F = WatchFraming
  import opened RuntimeModel
  import opened RuntimeInvariants
  import RuntimeRuns

  /**
   * The UTF-8 and JSON checks; and, for each frame in turn, the clock and whether what the frame
   * makes the watch send goes out.
   */
  datatype Surroundings = Surroundings(
    decode: seq<byte> -> Option<Message>,
    sent: nat -> bool,
    clock: nat -> U64)

  /** The watch, what it has sent and reported, and how many frames it has taken. */
  datatype Progress = Progress(watch: Watch, out: seq<Output>, frames: nat)

  /** Decoding a frame and handling its message. */
  function FrameHandler(l: C.Layout, env: Surroundings): F.Handler<Progress> {
    (p: Progress, frame: seq<byte>) =>
      var m := env.decode(frame);
      if m.None? then (p, false)
      else
        var h := HandleMessage(l, p.watch, m.value, env.sent(p.frames), env.clock(p.frames));
        (Progress(h.watch, p.out + h.out, if h.accepted then p.frames + 1 else p.frames), h.accepted)
  }

  /** What a protocol error leads to. */
  function Finished(l: C.Layout, fed: F.Fed<Progress>, env: Surroundings): Stepped {
    var p := fed.state;
    if fed.status == F.Fine then Stepped(p.watch, p.out)
    else
      var down := Disconnect(l, p.watch, env.clock(p.frames));
      Stepped(down.watch, p.out + down.out)
  }

  /** A series of receives, then the disconnection that follows a protocol error. */
  function ReceiveAll(l: C.Layout, w: Watch, chunks: seq<seq<byte>>, env: Surroundings): Stepped {
    Finished(l, F.FeedChunks([], Progress(w, [], 0), chunks, FrameHandler(l, env)), env)
  }

  /**
   * Two ways of cutting the same bytes, whatever they are, leave the watch in the same state and
   * make it send and report the same.
   */
  lemma FragmentationInvisible(
    l: C.Layout, w: Watch, chunks: seq<seq<byte>>, others: seq<seq<byte>>, env: Surroundings)
    requires Concat(chunks) == Concat(others)
    ensures ReceiveAll(l, w, chunks, env) == ReceiveAll(l, w, others, env)
  {
    var handler := FrameHandler(l, env);
    F.ChunkIndependence([], Progress(w, [], 0), chunks, handler);
    F.ChunkIndependence([], Progress(w, [], 0), others, handler);
  }

  // ---------- received bytes as events ----------

  function FrameEvent(frame: seq<byte>, env: Surroundings, k: nat): Event {
    var m := env.decode(frame);
    if m.None? then BadFrame(env.clock(k)) else Deliver(m.value, env.sent(k), env.clock(k))
  }

  /** The events in the lines of a stream: one for each frame, and a bad one for the first line that is too long. */
  function LineEvents(lines: seq<seq<byte>>, rest: seq<byte>, env: Surroundings, k: nat): seq<Event>
    decreases |lines|
  {
    if lines == [] then if |rest| > MAX_FRAME then [BadFrame(env.clock(k))] else []
    else if |lines[0]| > MAX_FRAME then [BadFrame(env.clock(k))]
    else if StripCr(lines[0]) == [] then LineEvents(lines[1..], rest, env, k)
    else [FrameEvent(StripCr(lines[0]), env, k)] + LineEvents(lines[1..], rest, env, k + 1)
  }

  /** What a closed connection ignores. */
  predicate FromPeer(events: seq<Event>) {
    forall i :: 0 <= i < |events| ==> events[i].Deliver? || events[i].BadFrame?
  }

  lemma {:induction false} ClosedIgnores(l: C.Layout, w: Watch, events: seq<Event>)
    requires !w.open && FromPeer(events)
    ensures Run(l, w, events) == Stepped(w, [])
    decreases |events|
  {
    if events == [] {
    } else {
      assert events[0].Deliver? || events[0].BadFrame?;
      assert Step(l, w, events[0]) == Stepped(w, []);
      ClosedIgnores(l, w, events[1..]);
    }
  }

  lemma {:induction false} LineEventsFromPeer(lines: seq<seq<byte>>, rest: seq<byte>, env: Surroundings, k: nat)
    ensures FromPeer(LineEvents(lines, rest, env, k))
    decreases |lines|
  {
    if lines == [] {
    } else {
      LineEventsFromPeer(lines[1..], rest, env, k);
      LineEventsFromPeer(lines[1..], rest, env, k + 1);
    }
  }

  lemma BadLine(l: C.Layout, p: Progress, now: U64)
    ensures var down := Disconnect(l, p.watch, now);
            Then(p.out, Run(l, p.watch, [BadFrame(now)])) == Stepped(down.watch, p.out + down.out)
  {
    hide Disconnect;
    RunFront(l, p.watch, BadFrame(now), []);
    assert [BadFrame(now)] + [] == [BadFrame(now)];
    var out := Disconnect(l, p.watch, now).out;
    assert out + [] == out;
  }

  /** A frame that ends the connection, and whatever follows it. */
  lemma LastFrame(l: C.Layout, p: Progress, frame: seq<byte>, env: Surroundings, later: seq<Event>)
    requires p.watch.open && FromPeer(later) && !FrameHandler(l, env)(p, frame).1
    ensures var refused := FrameHandler(l, env)(p, frame).0;
            Finished(l, F.Fed([], refused, F.Refused), env) ==
            Then(p.out, Run(l, p.watch, [FrameEvent(frame, env, p.frames)] + later))
  {
    var e := FrameEvent(frame, env, p.frames);
    var first := Step(l, p.watch, e);
    RefusedCloses(l, p, frame, env);
    hide HandleMessage, Disconnect, Step, FrameHandler, FrameEvent, Run;
    RunFront(l, p.watch, e, later);
    ClosedIgnores(l, first.watch, later);
    assert first.out + [] == first.out;
  }

  lemma RefusedCloses(l: C.Layout, p: Progress, frame: seq<byte>, env: Surroundings)
    requires p.watch.open && !FrameHandler(l, env)(p, frame).1
    ensures var first := Step(l, p.watch, FrameEvent(frame, env, p.frames));
            !first.watch.open &&
            Finished(l, F.Fed([], FrameHandler(l, env)(p, frame).0, F.Refused), env) == Then(p.out, first)
  {
    var m := env.decode(frame);
    if m.Some? {
      var h := HandleMessage(l, p.watch, m.value, env.sent(p.frames), env.clock(p.frames));
      var down := Disconnect(l, h.watch, env.clock(p.frames));
      hide HandleMessage;
      assert (p.out + h.out) + down.out == p.out + (h.out + down.out);
    }
  }

  /** A frame that is accepted. */
  lemma NextFrame(l: C.Layout, p: Progress, frame: seq<byte>, env: Surroundings, later: seq<Event>)
    requires p.watch.open && FrameHandler(l, env)(p, frame).1
    ensures var next := FrameHandler(l, env)(p, frame).0;
            && next.watch.open && next.frames == p.frames + 1
            && Then(p.out, Run(l, p.watch, [FrameEvent(frame, env, p.frames)] + later)) ==
               Then(next.out, Run(l, next.watch, later))
  {
    AcceptedStep(l, p, frame, env);
    hide *;
    var e := FrameEvent(frame, env, p.frames);
    var first := Step(l, p.watch, e);
    RunFront(l, p.watch, e, later);
    ThenThen(p.out, first.out, Run(l, first.watch, later));
  }

  lemma AcceptedStep(l: C.Layout, p: Progress, frame: seq<byte>, env: Surroundings)
    requires p.watch.open && FrameHandler(l, env)(p, frame).1
    ensures var first, next := Step(l, p.watch, FrameEvent(frame, env, p.frames)), FrameHandler(l, env)(p, frame).0;
            next.watch.open && next == Progress(first.watch, p.out + first.out, p.frames + 1)
  {
    RuntimeRuns.HandleShape(l, p.watch, env.decode(frame).value, env.sent(p.frames), env.clock(p.frames));
    hide HandleMessage;
  }

  lemma {:induction false} DeliverIsRun(
    l: C.Layout, p: Progress, lines: seq<seq<byte>>, rest: seq<byte>, env: Surroundings)
    requires p.watch.open
    ensures Finished(l, F.Deliver(lines, rest, p, FrameHandler(l, env)), env) ==
            Then(p.out, Run(l, p.watch, LineEvents(lines, rest, env, p.frames)))
    decreases |lines|
  {
    hide FrameHandler, Run, FrameEvent, Disconnect;
    BadLine(l, p, env.clock(p.frames));
    if lines == [] {
      if |rest| <= MAX_FRAME {
        NothingRun(l, p);
      }
    } else if |lines[0]| > MAX_FRAME {
    } else if StripCr(lines[0]) == [] {
      DeliverIsRun(l, p, lines[1..], rest, env);
    } else {
      var frame := StripCr(lines[0]);
      var later := LineEvents(lines[1..], rest, env, p.frames + 1);
      var (next, accepted) := FrameHandler(l, env)(p, frame);
      if accepted {
        NextFrame(l, p, frame, env, later);
        DeliverIsRun(l, next, lines[1..], rest, env);
      } else {
        LineEventsFromPeer(lines[1..], rest, env, p.frames + 1);
        LastFrame(l, p, frame, env, later);
      }
    }
  }

  lemma NothingRun(l: C.Layout, p: Progress)
    ensures Then(p.out, Run(l, p.watch, [])) == Stepped(p.watch, p.out)
  {
    assert p.out + [] == p.out;
  }

  /**
   * Receiving any bytes, however they are cut, is the run of the events in their lines. What is
   * proved of runs holds of received bytes.
   */
  lemma ReceiveIsRun(l: C.Layout, w: Watch, chunks: seq<seq<byte>>, env: Surroundings)
    requires w.open
    ensures ReceiveAll(l, w, chunks, env) ==
            Run(l, w, LineEvents(Complete(Concat(chunks)), Rest(Concat(chunks)), env, 0))
  {
    hide FrameHandler, Run, LineEvents;
    var bytes, start := Concat(chunks), Progress(w, [], 0);
    F.ChunkIndependence([], start, chunks, FrameHandler(l, env));
    F.FeedIsDeliver(bytes, start, FrameHandler(l, env));
    DeliverIsRun(l, start, Complete(bytes), Rest(bytes), env);
    var run := Run(l, w, LineEvents(Complete(bytes), Rest(bytes), env, 0));
    assert [] + run.out == run.out;
  }
}
