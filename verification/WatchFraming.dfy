/** The incremental frame decoder of the watch. */
module WatchFraming {
  import opened Integers
  import opened Lines

  datatype Status = Fine | TooLarge | Refused

  /** What decodes a frame and acts on it: the next handler state, and whether it was accepted. */
  type Handler<!S> = (S, seq<byte>) -> (S, bool)

  /** The decoder's unfinished line, the handler's state, and the outcome so far. */
  datatype Fed<S> = Fed(partial: seq<byte>, state: S, status: Status)

  function FeedByte<S>(partial: seq<byte>, state: S, b: byte, handle: Handler<S>): Fed<S> {
    if b == LF then
      var frame := StripCr(partial);
      if frame == [] then Fed([], state, Fine)
      else
        var (next, accepted) := handle(state, frame);
        Fed([], next, if accepted then Fine else Refused)
    else if |partial| >= MAX_FRAME then Fed([], state, TooLarge)
    else Fed(partial + [b], state, Fine)
  }

  function Feed<S>(partial: seq<byte>, state: S, bytes: seq<byte>, handle: Handler<S>): Fed<S>
    decreases |bytes|
  {
    if bytes == [] then Fed(partial, state, Fine)
    else
      var r := FeedByte(partial, state, bytes[0], handle);
      if r.status != Fine then r else Feed(r.partial, r.state, bytes[1..], handle)
  }

  /** Successive receives; the transport gives up after the first error. */
  function FeedChunks<S>(partial: seq<byte>, state: S, chunks: seq<seq<byte>>, handle: Handler<S>): Fed<S>
    decreases |chunks|
  {
    if chunks == [] then Fed(partial, state, Fine)
    else
      var r := Feed(partial, state, chunks[0], handle);
      if r.status != Fine then r else FeedChunks(r.partial, r.state, chunks[1..], handle)
  }

  class FrameDecoder {
    const bytes: array<byte>
    var length: nat

    ghost predicate Valid()
      reads this
    {
      bytes.Length == MAX_FRAME + 1 && length <= MAX_FRAME
    }

    function Partial(): seq<byte>
      requires Valid()
      reads this, bytes
    {
      bytes[..length]
    }

    constructor ()
      ensures Valid() && fresh(bytes) && Partial() == []
    {
      bytes := new byte[MAX_FRAME + 1];
      length := 0;
    }

    /** One receive: the loop over its bytes is `Feed`. */
    method Push<S>(chunk: seq<byte>, start: S, handle: Handler<S>) returns (state: S, status: Status)
      requires Valid()
      modifies this, bytes
      ensures Valid()
      ensures Fed(Partial(), state, status) == Feed(old(Partial()), start, chunk, handle)
    {
      state := start;
      for i := 0 to |chunk|
        invariant Valid()
        invariant Feed(old(Partial()), start, chunk, handle) == Feed(Partial(), state, chunk[i..], handle)
      {
        ghost var before := Partial();
        assert chunk[i..][0] == chunk[i] && chunk[i..][1..] == chunk[i + 1..];
        if chunk[i] == LF {
          var frameLength := length;
          if frameLength > 0 && bytes[frameLength - 1] == CR {
            frameLength := frameLength - 1;
          }
          assert bytes[..frameLength] == StripCr(before);
          if frameLength > 0 {
            var (next, accepted) := handle(state, bytes[..frameLength]);
            state := next;
            if !accepted {
              length := 0;
              return state, Refused;
            }
          }
          length := 0;
          continue;
        }
        if length >= MAX_FRAME {
          length := 0;
          return state, TooLarge;
        }
        bytes[length] := chunk[i];
        length := length + 1;
        assert Partial() == before + [chunk[i]];
      }
      return state, Fine;
    }
  }

  lemma {:induction false} FeedAppend<S>(partial: seq<byte>, state: S, a: seq<byte>, b: seq<byte>, handle: Handler<S>)
    ensures var r := Feed(partial, state, a, handle);
            Feed(partial, state, a + b, handle) == if r.status != Fine then r else Feed(r.partial, r.state, b, handle)
    decreases |a|
  {
    if a == [] {
      assert a + b == b;
    } else {
      assert (a + b)[0] == a[0] && (a + b)[1..] == a[1..] + b;
      var r := FeedByte(partial, state, a[0], handle);
      if r.status == Fine {
        FeedAppend(r.partial, r.state, a[1..], b, handle);
      }
    }
  }

  /** However the stream is cut into receives, the handler sees the same and the outcome is the same. */
  lemma {:induction false} ChunkIndependence<S>(
    partial: seq<byte>, state: S, chunks: seq<seq<byte>>, handle: Handler<S>)
    ensures FeedChunks(partial, state, chunks, handle) == Feed(partial, state, Concat(chunks), handle)
    decreases |chunks|
  {
    if chunks == [] {
    } else {
      FeedAppend(partial, state, chunks[0], Concat(chunks[1..]), handle);
      var r := Feed(partial, state, chunks[0], handle);
      if r.status == Fine {
        ChunkIndependence(r.partial, r.state, chunks[1..], handle);
      }
    }
  }

  /** The framing rules on whole lines: stop at the first line that is too long or refused. */
  function Deliver<S>(lines: seq<seq<byte>>, rest: seq<byte>, state: S, handle: Handler<S>): Fed<S> {
    if lines == [] then
      if |rest| > MAX_FRAME then Fed([], state, TooLarge) else Fed(rest, state, Fine)
    else if |lines[0]| > MAX_FRAME then Fed([], state, TooLarge)
    else if StripCr(lines[0]) == [] then Deliver(lines[1..], rest, state, handle)
    else
      var (next, accepted) := handle(state, StripCr(lines[0]));
      if accepted then Deliver(lines[1..], rest, next, handle) else Fed([], next, Refused)
  }

  lemma {:induction false} FeedWithinLine<S>(partial: seq<byte>, state: S, text: seq<byte>, handle: Handler<S>)
    requires LF !in text && |partial| <= MAX_FRAME
    ensures Feed(partial, state, text, handle) ==
            if |partial + text| > MAX_FRAME then Fed([], state, TooLarge) else Fed(partial + text, state, Fine)
    decreases |text|
  {
    if text == [] {
      assert partial + text == partial;
    } else if |partial| < MAX_FRAME {
      assert partial + text == (partial + [text[0]]) + text[1..];
      FeedWithinLine(partial + [text[0]], state, text[1..], handle);
    }
  }

  /** A whole line and its line feed, from an empty buffer. */
  lemma FeedLine<S>(line: seq<byte>, tail: seq<byte>, state: S, handle: Handler<S>)
    requires LF !in line
    ensures Feed([], state, line + [LF] + tail, handle) ==
            if |line| > MAX_FRAME then Fed([], state, TooLarge)
            else
              var r := FeedByte(line, state, LF, handle);
              if r.status != Fine then r else Feed([], r.state, tail, handle)
  {
    assert line + [LF] + tail == line + ([LF] + tail);
    FeedAppend([], state, line, [LF] + tail, handle);
    FeedWithinLine([], state, line, handle);
    assert [] + line == line;
    assert ([LF] + tail)[1..] == tail;
  }

  /** The byte-at-a-time decoder does exactly what the framing rules say of the stream's lines. */
  lemma {:induction false} FeedIsDeliver<S>(bytes: seq<byte>, state: S, handle: Handler<S>)
    ensures Feed([], state, bytes, handle) == Deliver(Complete(bytes), Rest(bytes), state, handle)
    decreases |bytes|
  {
    var k := FirstLf(bytes);
    if k == |bytes| {
      assert bytes[..k] == bytes && [] + bytes == bytes;
      FeedWithinLine([], state, bytes, handle);
    } else {
      var line, tail := bytes[..k], bytes[k + 1..];
      assert bytes == line + [LF] + tail;
      FeedLine(line, tail, state, handle);
      FeedIsDeliver(tail, FeedByte(line, state, LF, handle).state, handle);
    }
  }

  /** A handler that records every frame, and accepts those that decode. */
  function Recorder(decodes: seq<byte> -> bool): Handler<seq<seq<byte>>> {
    (seen: seq<seq<byte>>, frame: seq<byte>) => (seen + [frame], decodes(frame))
  }

  lemma {:induction false} DeliverFrames(
    lines: seq<seq<byte>>, rest: seq<byte>, seen: seq<seq<byte>>, decodes: seq<byte> -> bool)
    requires Fits(lines) && |rest| <= MAX_FRAME && AllDecodable(lines, decodes)
    ensures Deliver(lines, rest, seen, Recorder(decodes)) == Fed(rest, seen + Frames(lines), Fine)
  {
    if lines == [] {
      assert seen + [] == seen;
    } else {
      var frame := StripCr(lines[0]);
      if frame == [] {
        assert [] + Frames(lines[1..]) == Frames(lines[1..]);
        DeliverFrames(lines[1..], rest, seen, decodes);
      } else {
        DeliverFrames(lines[1..], rest, seen + [frame], decodes);
        assert (seen + [frame]) + Frames(lines[1..]) == seen + ([frame] + Frames(lines[1..]));
      }
    }
  }

  /** On a clean stream, every fragmentation hands over exactly the frames of its lines, in order. */
  lemma WatchRecovers(chunks: seq<seq<byte>>, decodes: seq<byte> -> bool)
    requires var bytes := Concat(chunks);
             Fits(Complete(bytes)) && |Rest(bytes)| <= MAX_FRAME && AllDecodable(Complete(bytes), decodes)
    ensures FeedChunks([], [], chunks, Recorder(decodes)) ==
            Fed(Rest(Concat(chunks)), Frames(Complete(Concat(chunks))), Fine)
  {
    var bytes := Concat(chunks);
    ChunkIndependence([], [], chunks, Recorder(decodes));
    FeedIsDeliver(bytes, [], Recorder(decodes));
    DeliverFrames(Complete(bytes), Rest(bytes), [], decodes);
    assert [] + Frames(Complete(bytes)) == Frames(Complete(bytes));
  }
}
