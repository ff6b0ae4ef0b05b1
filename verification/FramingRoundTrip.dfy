/** From encoded messages, through partial sends and arbitrary receives, back to the same messages. */
module FramingRoundTrip {
  import opened Integers
  import opened Lines
  import WatchFraming
  import HostFraming

  /** What both encoders produce: a JSON object on one line. */
  predicate IsBody(body: seq<byte>) {
    body != [] && LF !in body && body[|body| - 1] != CR && |body| <= MAX_FRAME
  }

  predicate AllBodies(bodies: seq<seq<byte>>) {
    forall i :: 0 <= i < |bodies| ==> IsBody(bodies[i])
  }

  /** The host's encoder, after serialization. */
  function EncodeFrame(body: seq<byte>): Option<seq<byte>> {
    if |body| > MAX_FRAME then None else Some(body + [LF])
  }

  function EncodeAll(bodies: seq<seq<byte>>): seq<byte>
    requires AllBodies(bodies)
  {
    if bodies == [] then [] else EncodeFrame(bodies[0]).value + EncodeAll(bodies[1..])
  }

  /**
   * The watch's send loop. `send(attempt, remaining)` is what the socket returns: an error, or
   * how many of the remaining bytes it took. `wire` collects the bytes it took.
   */
  method SendBytes(bytes: seq<byte>, send: (nat, nat) -> int) returns (ok: bool, wire: seq<byte>)
    requires forall attempt, remaining :: send(attempt, remaining) <= remaining
    ensures wire <= bytes
    ensures ok <==> wire == bytes
  {
    var sent, attempt := 0, 0;
    wire := [];
    while sent < |bytes|
      invariant 0 <= sent <= |bytes| && wire == bytes[..sent]
    {
      var result := send(attempt, |bytes| - sent);
      attempt := attempt + 1;
      if result <= 0 {
        return false, wire;
      }
      wire := wire + bytes[sent..sent + result];
      sent := sent + result;
    }
    return true, wire;
  }

  lemma {:induction false} BodiesDecode(bodies: seq<seq<byte>>, decodes: seq<byte> -> bool)
    requires AllBodies(bodies) && forall i :: 0 <= i < |bodies| ==> decodes(bodies[i])
    ensures AllDecodable(bodies, decodes)
  {
    if bodies == [] {
    } else {
      assert IsBody(bodies[0]) && decodes(bodies[0]);
      BodiesDecode(bodies[1..], decodes);
    }
  }

  lemma {:induction false} EncodedLines(bodies: seq<seq<byte>>)
    requires AllBodies(bodies)
    ensures Complete(EncodeAll(bodies)) == bodies && Rest(EncodeAll(bodies)) == []
    ensures Frames(bodies) == bodies && Fits(bodies)
  {
    hide Complete, Rest;
    if bodies == [] {
      NoLine([]);
    } else {
      TakeLine(bodies[0], EncodeAll(bodies[1..]));
      assert StripCr(bodies[0]) == bodies[0];
      EncodedLines(bodies[1..]);
    }
  }

  /**
   * Any sequence of encoded messages, cut up in one way for the watch and in another for the
   * host, is recovered exactly and in order by both decoders, which end with empty buffers.
   */
  lemma RoundTrip(
    bodies: seq<seq<byte>>, chunks: seq<seq<byte>>, otherChunks: seq<seq<byte>>, decodes: seq<byte> -> bool)
    requires AllBodies(bodies) && forall i :: 0 <= i < |bodies| ==> decodes(bodies[i])
    requires Concat(chunks) == Concat(otherChunks) == EncodeAll(bodies)
    ensures WatchFraming.FeedChunks([], [], chunks, WatchFraming.Recorder(decodes)) ==
            WatchFraming.Fed([], bodies, WatchFraming.Fine)
    ensures HostFraming.PushAll([], otherChunks, decodes) == HostFraming.Pushed([], bodies, None)
  {
    EncodedLines(bodies);
    BodiesDecode(bodies, decodes);
    WatchFraming.WatchRecovers(chunks, decodes);
    assert [] + Concat(otherChunks) == Concat(otherChunks);
    HostFraming.ChunksSucceed([], otherChunks, decodes);
  }

  /**
   * The two decoders agree: a stream whose lines fit with their carriage return, and whose
   * frames decode, yields the same frames on both sides however each side receives it.
   */
  lemma DecodersAgree(chunks: seq<seq<byte>>, otherChunks: seq<seq<byte>>, decodes: seq<byte> -> bool)
    requires Concat(chunks) == Concat(otherChunks)
    requires var lines := Complete(Concat(chunks));
             Fits(lines) && AllDecodable(lines, decodes) && |Rest(Concat(chunks))| <= MAX_FRAME
    ensures var watch := WatchFraming.FeedChunks([], [], chunks, WatchFraming.Recorder(decodes));
            var host := HostFraming.PushAll([], otherChunks, decodes);
            watch.status == WatchFraming.Fine && host.error.None? &&
            watch.state == host.messages && watch.partial == host.buffered
  {
    var lines := Complete(Concat(chunks));
    WatchFraming.WatchRecovers(chunks, decodes);
    assert [] + Concat(otherChunks) == Concat(otherChunks);
    HostFraming.ChunksSucceed([], otherChunks, decodes);
  }

  lemma {:induction false} DeliverFineIff(
    lines: seq<seq<byte>>, rest: seq<byte>, seen: seq<seq<byte>>, decodes: seq<byte> -> bool)
    ensures WatchFraming.Deliver(lines, rest, seen, WatchFraming.Recorder(decodes)).status == WatchFraming.Fine <==>
            Fits(lines) && AllDecodable(lines, decodes) && |rest| <= MAX_FRAME
  {
    if lines == [] {
    } else {
      assert Fits(lines) <==> |lines[0]| <= MAX_FRAME && Fits(lines[1..]) by {
        assert forall i :: 0 < i < |lines| ==> lines[i] == lines[1..][i - 1];
      }
      var frame := StripCr(lines[0]);
      DeliverFineIff(lines[1..], rest, if frame == [] then seen else seen + [frame], decodes);
    }
  }

  /**
   * The watch takes a stream without an error exactly when the host does under every
   * fragmentation; then they deliver the same frames.
   */
  lemma WatchAcceptsIff(chunks: seq<seq<byte>>, decodes: seq<byte> -> bool)
    ensures WatchFraming.FeedChunks([], [], chunks, WatchFraming.Recorder(decodes)).status == WatchFraming.Fine <==>
            HostFraming.EveryCutSucceeds(Concat(chunks), decodes)
  {
    var bytes := Concat(chunks);
    var recorder := WatchFraming.Recorder(decodes);
    WatchFraming.ChunkIndependence([], [], chunks, recorder);
    WatchFraming.FeedIsDeliver(bytes, [], recorder);
    DeliverFineIff(Complete(bytes), Rest(bytes), [], decodes);
    HostFraming.EveryCutSucceedsIff(bytes, decodes);
  }

  /**
   * They part on a frame of exactly the maximum size ended by CR LF: the host, reading it in one
   * piece, takes the carriage return off before it measures; the watch counts it.
   */
  lemma LargestFrameWithCr(frame: seq<byte>, decodes: seq<byte> -> bool)
    requires |frame| == 16384 && 10 !in frame && decodes(frame)
    ensures HostFraming.PushAll([], [frame + [13] + [10] + []], decodes) == HostFraming.Pushed([], [frame], None)
    ensures WatchFraming.FeedChunks([], [], [frame + [13] + [10] + []], WatchFraming.Recorder(decodes)).status ==
            WatchFraming.TooLarge
  {
    var line := frame + [CR];
    var stream := line + [LF] + [];
    assert StripCr(line) == frame;
    HostFraming.DrainLine(line, [], [], decodes);
    NoLine([]);
    assert [] + [frame] == [frame] && [] + stream == stream && [frame] + [] == [frame];
    var none: seq<seq<byte>> := [];
    assert [stream][1..] == none;
    WatchFraming.FeedLine(line, [], [], WatchFraming.Recorder(decodes));
  }
}
