/** The frame decoder and encoder of the host, which buffer whole lines before decoding them. */
module HostFraming {
  import opened Integers
  import opened Lines

  datatype FrameError = FrameTooLarge | DecodeFailed

  /** What one push leaves buffered, the messages it returns, and the error it raises instead. */
  datatype Pushed = Pushed(buffered: seq<byte>, messages: seq<seq<byte>>, error: Option<FrameError>)

  /** The size and decoding tests on a frame that is not empty; `decodes` stands for UTF-8 and JSON. */
  function DecodeFrame(frame: seq<byte>, decodes: seq<byte> -> bool): Option<FrameError> {
    if |StripCr(frame)| > MAX_FRAME then Some(FrameTooLarge)
    else if !decodes(StripCr(frame)) then Some(DecodeFailed)
    else None
  }

  function Drain(buffered: seq<byte>, messages: seq<seq<byte>>, decodes: seq<byte> -> bool): Pushed
    decreases |buffered|
  {
    var end := FirstLf(buffered);
    if end == |buffered| then
      if |buffered| > MAX_FRAME then Pushed([], [], Some(FrameTooLarge)) else Pushed(buffered, messages, None)
    else
      var frame, rest := buffered[..end], buffered[end + 1..];
      if frame == [CR] || frame == [] then Drain(rest, messages, decodes)
      else
        var error := DecodeFrame(frame, decodes);
        if error.Some? then Pushed(rest, [], error) else Drain(rest, messages + [StripCr(frame)], decodes)
  }

  class FrameDecoder {
    var buffered: seq<byte>

    constructor ()
      ensures buffered == []
    {
      buffered := [];
    }

    method Push(bytes: seq<byte>, decodes: seq<byte> -> bool)
      returns (messages: seq<seq<byte>>, error: Option<FrameError>)
      modifies this
      ensures Pushed(buffered, messages, error) == Drain(old(buffered) + bytes, [], decodes)
    {
      buffered := buffered + bytes;
      messages := [];
      ghost var stream := buffered;
      while FirstLf(buffered) < |buffered|
        invariant Drain(stream, [], decodes) == Drain(buffered, messages, decodes)
        decreases |buffered|
      {
        var end := FirstLf(buffered);
        var frame := buffered[..end];
        buffered := buffered[end + 1..];
        if frame == [CR] || frame == [] {
          continue;
        }
        error := DecodeFrame(frame, decodes);
        if error.Some? {
          return [], error;
        }
        messages := messages + [StripCr(frame)];
      }
      if |buffered| > MAX_FRAME {
        buffered := [];
        return [], Some(FrameTooLarge);
      }
      return messages, None;
    }
  }

  /** Successive reads of one connection, which ends at the first error. */
  function PushAll(buffered: seq<byte>, chunks: seq<seq<byte>>, decodes: seq<byte> -> bool): Pushed
    decreases |chunks|
  {
    if chunks == [] then Pushed(buffered, [], None)
    else
      var r := Drain(buffered + chunks[0], [], decodes);
      if r.error.Some? then r
      else
        var later := PushAll(r.buffered, chunks[1..], decodes);
        later.(messages := r.messages + later.messages)
  }

  /** One line at the front of the buffer. */
  lemma DrainLine(line: seq<byte>, tail: seq<byte>, messages: seq<seq<byte>>, decodes: seq<byte> -> bool)
    requires LF !in line
    ensures Drain(line + [LF] + tail, messages, decodes) ==
            if StripCr(line) == [] then Drain(tail, messages, decodes)
            else
              var error := DecodeFrame(line, decodes);
              if error.Some? then Pushed(tail, [], error) else Drain(tail, messages + [StripCr(line)], decodes)
  {
    var s := line + [LF] + tail;
    FirstLfAt(line, tail);
    assert s[..|line|] == line && s[|line| + 1..] == tail;
    assert StripCr(line) == [] <==> line == [] || line == [CR];
  }

  /** An unfinished line. */
  lemma DrainOpen(buffered: seq<byte>, messages: seq<seq<byte>>, decodes: seq<byte> -> bool)
    requires LF !in buffered
    ensures Drain(buffered, messages, decodes) ==
            if |buffered| > MAX_FRAME then Pushed([], [], Some(FrameTooLarge)) else Pushed(buffered, messages, None)
  {
    assert FirstLf(buffered) == |buffered|;
  }

  lemma NoFrames(decodes: seq<byte> -> bool)
    ensures AllDecodable([], decodes) && Frames([]) == []
  {}

  lemma AllDecodableFront(line: seq<byte>, lines: seq<seq<byte>>, decodes: seq<byte> -> bool)
    ensures AllDecodable([line] + lines, decodes) <==> Decodable(line, decodes) && AllDecodable(lines, decodes)
    ensures Frames([line] + lines) == (if StripCr(line) == [] then [] else [StripCr(line)]) + Frames(lines)
  {
    assert ([line] + lines)[1..] == lines;
  }

  /** One push succeeds exactly when every complete line decodes and the unfinished one is not too long. */
  lemma {:induction false} DrainSpec(buffered: seq<byte>, messages: seq<seq<byte>>, decodes: seq<byte> -> bool)
    ensures Drain(buffered, messages, decodes).error.None? <==>
            AllDecodable(Complete(buffered), decodes) && |Rest(buffered)| <= MAX_FRAME
    ensures Drain(buffered, messages, decodes).error.None? ==>
            Drain(buffered, messages, decodes) == Pushed(Rest(buffered), messages + Frames(Complete(buffered)), None)
    ensures Drain(buffered, messages, decodes).error.Some? ==> Drain(buffered, messages, decodes).messages == []
    decreases |buffered|
  {
    hide Complete, Rest, Drain, AllDecodable, Frames;
    if LF !in buffered {
      NoLine(buffered);
      DrainOpen(buffered, messages, decodes);
      NoFrames(decodes);
      assert messages + [] == messages;
    } else {
      var line, tail := FirstLine(buffered);
      DrainLine(line, tail, messages, decodes);
      AllDecodableFront(line, Complete(tail), decodes);
      if StripCr(line) == [] {
        assert [] + Frames(Complete(tail)) == Frames(Complete(tail));
        DrainSpec(tail, messages, decodes);
      } else if DecodeFrame(line, decodes).None? {
        DrainSpec(tail, messages + [StripCr(line)], decodes);
        var later := Frames(Complete(tail));
        assert (messages + [StripCr(line)]) + later == messages + ([StripCr(line)] + later);
      }
    }
  }

  /** Lines that fit even with their carriage return are received whole under every fragmentation. */
  lemma {:induction false} ChunksSucceed(buffered: seq<byte>, chunks: seq<seq<byte>>, decodes: seq<byte> -> bool)
    requires var bytes := buffered + Concat(chunks);
             Fits(Complete(bytes)) && AllDecodable(Complete(bytes), decodes) && |Rest(bytes)| <= MAX_FRAME
    requires LF !in buffered
    ensures var bytes := buffered + Concat(chunks);
            PushAll(buffered, chunks, decodes) == Pushed(Rest(bytes), Frames(Complete(bytes)), None)
    decreases |chunks|
  {
    if chunks == [] {
      assert buffered + [] == buffered;
      NoLine(buffered);
    } else {
      var a, b := buffered + chunks[0], Concat(chunks[1..]);
      assert buffered + Concat(chunks) == a + b;
      ChunkSucceeds(a, b, decodes);
      ChunksSucceed(Rest(a), chunks[1..], decodes);
    }
  }

  /** The first read of a stream that fits succeeds, and leaves the rest of the stream to the next ones. */
  lemma ChunkSucceeds(a: seq<byte>, b: seq<byte>, decodes: seq<byte> -> bool)
    requires Fits(Complete(a + b)) && AllDecodable(Complete(a + b), decodes) && |Rest(a + b)| <= MAX_FRAME
    ensures Drain(a, [], decodes) == Pushed(Rest(a), Frames(Complete(a)), None)
    ensures Fits(Complete(Rest(a) + b)) && AllDecodable(Complete(Rest(a) + b), decodes)
    ensures Rest(Rest(a) + b) == Rest(a + b)
    ensures Frames(Complete(a + b)) == Frames(Complete(a)) + Frames(Complete(Rest(a) + b))
  {
    SplitConcat(a, b);
    var la, lb := Complete(a), Complete(Rest(a) + b);
    assert forall i :: 0 <= i < |lb| ==> lb[i] == (la + lb)[|la| + i];
    AllDecodableAppend(la, lb, decodes);
    FramesAppend(la, lb);
    OpenLineFits(a, b);
    DrainSpec(a, [], decodes);
    assert [] + Frames(la) == Frames(la);
  }

  /** The unfinished line of a prefix begins a line of the whole stream. */
  lemma OpenLineFits(a: seq<byte>, b: seq<byte>)
    requires Fits(Complete(a + b)) && |Rest(a + b)| <= MAX_FRAME
    ensures |Rest(a)| <= MAX_FRAME
  {
    SplitConcat(a, b);
    var s := Rest(a) + b;
    var k := FirstLf(s);
    assert forall i :: 0 <= i < |Rest(a)| ==> s[i] == Rest(a)[i];
    assert k >= |Rest(a)|;
    if k < |s| {
      assert Complete(a + b)[|Complete(a)|] == s[..k];
    }
  }

  lemma {:induction false} UnlinesAt(lines: seq<seq<byte>>, rest: seq<byte>, i: nat)
    requires i < |lines|
    ensures Unlines(lines, rest) == Unlines(lines[..i], lines[i]) + [LF] + Unlines(lines[i + 1..], rest)
    ensures Unlines(lines[..i + 1], []) == Unlines(lines[..i], lines[i]) + [LF]
  {
    if i == 0 {
      assert lines[..0] == [] && lines[..1][1..] == [];
    } else {
      assert lines[..i][0] == lines[0] && lines[..i][1..] == lines[1..][..i - 1];
      assert lines[..i + 1][0] == lines[0] && lines[..i + 1][1..] == lines[1..][..i];
      UnlinesAt(lines[1..], rest, i - 1);
    }
  }

  /** The line feed that ends line `i` parts the stream: what comes before it, and what comes after. */
  lemma CutAtLf(bytes: seq<byte>, i: nat) returns (a: seq<byte>, b: seq<byte>)
    requires i < |Complete(bytes)|
    ensures bytes == a + ([LF] + b) && bytes == (a + [LF]) + b
    ensures Complete(a) == Complete(bytes)[..i] && Rest(a) == Complete(bytes)[i]
    ensures Complete(a + [LF]) == Complete(bytes)[..i + 1] && Rest(a + [LF]) == []
  {
    hide Complete, Rest, Unlines;
    var lines, rest := Complete(bytes), Rest(bytes);
    JoinSplit(bytes);
    UnlinesAt(lines, rest, i);
    a, b := Unlines(lines[..i], lines[i]), Unlines(lines[i + 1..], rest);
    SplitJoined(lines[..i], lines[i]);
    SplitJoined(lines[..i + 1], []);
  }

  /** Every way of cutting the stream into reads succeeds. */
  ghost predicate EveryCutSucceeds(bytes: seq<byte>, decodes: seq<byte> -> bool) {
    forall chunks: seq<seq<byte>> :: Concat(chunks) == bytes ==> PushAll([], chunks, decodes).error.None?
  }

  /** Every line fits, counted with its carriage return, and carries no frame or one that decodes. */
  predicate Clean(bytes: seq<byte>, decodes: seq<byte> -> bool) {
    Fits(Complete(bytes)) && AllDecodable(Complete(bytes), decodes) && |Rest(bytes)| <= MAX_FRAME
  }

  /** A read that stops just before the line feed of a line that is too long fails. */
  lemma LongLineFails(bytes: seq<byte>, decodes: seq<byte> -> bool, i: nat) returns (chunks: seq<seq<byte>>)
    requires i < |Complete(bytes)| && |Complete(bytes)[i]| > MAX_FRAME
    ensures Concat(chunks) == bytes && PushAll([], chunks, decodes).error.Some?
  {
    var a, b := CutAtLf(bytes, i);
    chunks := [a, [LF] + b];
    TwoChunks(a, [LF] + b);
    assert [] + a == a;
    DrainSpec(a, [], decodes);
  }

  /**
   * Every fragmentation of a stream is received without an error exactly when each of its frames
   * decodes and each line, counted with its carriage return, is within the limit. A frame of
   * 16384 bytes ended by CR LF decodes in one read but not when the read stops between the two.
   */
  lemma EveryCutSucceedsIff(bytes: seq<byte>, decodes: seq<byte> -> bool)
    ensures EveryCutSucceeds(bytes, decodes) <==> Clean(bytes, decodes)
  {
    assert [] + bytes == bytes;
    if EveryCutSucceeds(bytes, decodes) {
      OneChunk(bytes);
      assert PushAll([], [bytes], decodes).error.None?;
      DrainSpec(bytes, [], decodes);
      forall i | 0 <= i < |Complete(bytes)|
        ensures |Complete(bytes)[i]| <= MAX_FRAME
      {
        if |Complete(bytes)[i]| > MAX_FRAME {
          var chunks := LongLineFails(bytes, decodes, i);
        }
      }
    }
    if Clean(bytes, decodes) {
      forall chunks: seq<seq<byte>> | Concat(chunks) == bytes
        ensures PushAll([], chunks, decodes).error.None?
      {
        ChunksSucceed([], chunks, decodes);
      }
    }
  }

  // ---------- when the way of cutting does not show at all ----------

  /** The first line that carries a frame, or the number of lines when none does. */
  function FirstFrame(lines: seq<seq<byte>>): (j: nat)
    ensures j <= |lines|
    ensures forall i :: 0 <= i < j ==> StripCr(lines[i]) == []
    ensures j < |lines| ==> StripCr(lines[j]) != []
  {
    if lines == [] || StripCr(lines[0]) != [] then 0 else 1 + FirstFrame(lines[1..])
  }

  /**
   * The error in the first frame of a stream that shows under every fragmentation. A frame that
   * is too long only with its carriage return and does not decode has two errors; which one is
   * reported depends on the reads.
   */
  function FirstError(bytes: seq<byte>, decodes: seq<byte> -> bool): Option<FrameError> {
    var lines := Complete(bytes);
    var j := FirstFrame(lines);
    if j == |lines| then if |Rest(bytes)| > MAX_FRAME then Some(FrameTooLarge) else None
    else if |StripCr(lines[j])| > MAX_FRAME then Some(FrameTooLarge)
    else if |lines[j]| <= MAX_FRAME && !decodes(StripCr(lines[j])) then Some(DecodeFailed)
    else None
  }

  /** Up to its first frame, one push passes over the lines. */
  lemma {:induction false} DrainFirst(buffered: seq<byte>, decodes: seq<byte> -> bool)
    ensures var lines := Complete(buffered);
            var j, r := FirstFrame(lines), Drain(buffered, [], decodes);
            && (j == |lines| ==>
                  r == if |Rest(buffered)| > MAX_FRAME then Pushed([], [], Some(FrameTooLarge))
                       else Pushed(Rest(buffered), [], None))
            && (j < |lines| && DecodeFrame(lines[j], decodes).Some? ==>
                  r.messages == [] && r.error == DecodeFrame(lines[j], decodes))
    decreases |buffered|
  {
    hide Complete, Rest, Drain;
    if LF !in buffered {
      NoLine(buffered);
      DrainOpen(buffered, [], decodes);
    } else {
      var line, tail := FirstLine(buffered);
      DrainLine(line, tail, [], decodes);
      assert ([line] + Complete(tail))[1..] == Complete(tail);
      DrainFirst(tail, decodes);
    }
  }

  lemma {:induction false} FirstFrameAppend(a: seq<seq<byte>>, b: seq<seq<byte>>)
    ensures FirstFrame(a + b) == if FirstFrame(a) < |a| then FirstFrame(a) else |a| + FirstFrame(b)
  {
    if a == [] {
      assert a + b == b;
    } else {
      assert (a + b)[1..] == a[1..] + b;
      FirstFrameAppend(a[1..], b);
    }
  }

  /** An unfinished line that is too long is the first error of the stream it opens. */
  lemma LongOpening(open: seq<byte>, b: seq<byte>, decodes: seq<byte> -> bool)
    requires LF !in open && |open| > MAX_FRAME && FirstError(open + b, decodes).Some?
    ensures FirstError(open + b, decodes) == Some(FrameTooLarge)
  {
    var s := open + b;
    var k := FirstLf(s);
    assert forall i :: 0 <= i < |open| ==> s[i] == open[i];
    assert k >= |open|;
    if k == |s| {
      assert s[..k] == s;
      NoLine(s);
    } else {
      assert s == s[..k] + [LF] + s[k + 1..];
      TakeLine(s[..k], s[k + 1..]);
    }
  }

  /** A stream with such an error gives just that error, however it is cut. */
  lemma {:induction false} FirstErrorShows(buffered: seq<byte>, chunks: seq<seq<byte>>, decodes: seq<byte> -> bool)
    requires LF !in buffered && |buffered| <= MAX_FRAME
    requires FirstError(buffered + Concat(chunks), decodes).Some?
    ensures var r := PushAll(buffered, chunks, decodes);
            r.messages == [] && r.error == FirstError(buffered + Concat(chunks), decodes)
    decreases |chunks|
  {
    hide Complete, Rest, FirstFrame, Drain;
    if chunks == [] {
      assert buffered + [] == buffered;
      NoLine(buffered);
    } else {
      var a, b := buffered + chunks[0], Concat(chunks[1..]);
      assert buffered + Concat(chunks) == a + b;
      SplitConcat(a, b);
      FirstFrameAppend(Complete(a), Complete(Rest(a) + b));
      DrainFirst(a, decodes);
      if FirstFrame(Complete(a)) < |Complete(a)| {
        var j := FirstFrame(Complete(a));
        assert Complete(a + b)[j] == Complete(a)[j];
      } else {
        SkipBlank(a, b, decodes);
        if |Rest(a)| > MAX_FRAME {
          LongOpening(Rest(a), b, decodes);
        } else {
          FirstErrorShows(Rest(a), chunks[1..], decodes);
        }
      }
    }
  }

  lemma SkipBlank(a: seq<byte>, b: seq<byte>, decodes: seq<byte> -> bool)
    requires FirstFrame(Complete(a)) == |Complete(a)|
    ensures FirstError(a + b, decodes) == FirstError(Rest(a) + b, decodes)
  {
    hide Complete, Rest, FirstFrame;
    SplitConcat(a, b);
    FirstFrameAppend(Complete(a), Complete(Rest(a) + b));
    var j, lines := FirstFrame(Complete(Rest(a) + b)), Complete(Rest(a) + b);
    assert j < |lines| ==> (Complete(a) + lines)[|Complete(a)| + j] == lines[j];
  }

  /** What the caller of the decoder gets to see of a series of reads. */
  function Seen(chunks: seq<seq<byte>>, decodes: seq<byte> -> bool): (seq<seq<byte>>, Option<FrameError>) {
    var r := PushAll([], chunks, decodes);
    (r.messages, r.error)
  }

  /** Any two fragmentations of the stream give the same messages and the same error or none. */
  ghost predicate CutIndependent(bytes: seq<byte>, decodes: seq<byte> -> bool) {
    forall a: seq<seq<byte>>, b: seq<seq<byte>> ::
      Concat(a) == bytes && Concat(b) == bytes ==> Seen(a, decodes) == Seen(b, decodes)
  }

  lemma OneRead(bytes: seq<byte>, decodes: seq<byte> -> bool)
    ensures Concat([bytes]) == bytes
    ensures Seen([bytes], decodes) == (Drain(bytes, [], decodes).messages, Drain(bytes, [], decodes).error)
  {
    OneChunk(bytes);
    hide Drain, Concat;
    var none: seq<seq<byte>> := [];
    assert [bytes][1..] == none && [] + [bytes][0] == bytes;
    var r := Drain(bytes, [], decodes);
    assert PushAll(r.buffered, none, decodes).messages == none;
    assert r.messages + none == r.messages;
  }

  /** A first frame that is too long only with its carriage return, and does not decode, has two errors. */
  lemma TwoErrors(bytes: seq<byte>, decodes: seq<byte> -> bool) returns (a: seq<seq<byte>>, b: seq<seq<byte>>)
    requires var lines := Complete(bytes);
             var j := FirstFrame(lines);
             j < |lines| && |lines[j]| > MAX_FRAME >= |StripCr(lines[j])| && !decodes(StripCr(lines[j]))
    ensures Concat(a) == bytes && Concat(b) == bytes
    ensures Seen(a, decodes).1 == Some(DecodeFailed) && Seen(b, decodes).1 == Some(FrameTooLarge)
  {
    hide Complete, Rest, FirstFrame, Concat, Drain;
    var lines := Complete(bytes);
    var j := FirstFrame(lines);
    a := [bytes];
    OneRead(bytes, decodes);
    DrainFirst(bytes, decodes);
    var before, after := CutAtLf(bytes, j);
    b := [before, [LF] + after];
    TwoChunks(before, [LF] + after);
    assert [] + before == before;
    BlankPrefix(lines);
    DrainFirst(before, decodes);
  }

  /** A first frame that decodes is handed over when a read ends right after it, and lost in one read that fails. */
  lemma FirstFrameLost(bytes: seq<byte>, decodes: seq<byte> -> bool) returns (a: seq<seq<byte>>, b: seq<seq<byte>>)
    requires FirstFrame(Complete(bytes)) < |Complete(bytes)|
    requires Decodable(Complete(bytes)[FirstFrame(Complete(bytes))], decodes)
    requires Drain(bytes, [], decodes).error.Some?
    ensures Concat(a) == bytes && Concat(b) == bytes && Seen(a, decodes).0 == [] && Seen(b, decodes).0 != []
  {
    hide Complete, Rest, FirstFrame, Concat, Drain, Decodable, AllDecodable, Frames;
    var lines := Complete(bytes);
    var j := FirstFrame(lines);
    a := [bytes];
    OneRead(bytes, decodes);
    DrainSpec(bytes, [], decodes);
    var before, after := CutAtLf(bytes, j);
    b := [before + [LF], after];
    TwoChunks(before + [LF], after);
    assert [] + (before + [LF]) == before + [LF];
    FirstFrameGoesOut(lines, j, decodes);
    DrainSpec(before + [LF], [], decodes);
  }

  /** Without such an error in the first frame, a stream that is not clean shows how it is cut. */
  lemma CutsDiffer(bytes: seq<byte>, decodes: seq<byte> -> bool) returns (a: seq<seq<byte>>, b: seq<seq<byte>>)
    requires !Clean(bytes, decodes) && FirstError(bytes, decodes).None?
    ensures Concat(a) == bytes && Concat(b) == bytes && Seen(a, decodes) != Seen(b, decodes)
  {
    hide Complete, Rest, FirstFrame, Concat, Drain, AllDecodable;
    var lines := Complete(bytes);
    var j := FirstFrame(lines);
    if j == |lines| {
      BlankDecodable(lines, decodes);
    }
    if !decodes(StripCr(lines[j])) {
      a, b := TwoErrors(bytes, decodes);
    } else if Drain(bytes, [], decodes).error.Some? {
      a, b := FirstFrameLost(bytes, decodes);
    } else {
      DrainSpec(bytes, [], decodes);
      a := [bytes];
      OneRead(bytes, decodes);
      var i :| 0 <= i < |lines| && |lines[i]| > MAX_FRAME;
      b := LongLineFails(bytes, decodes, i);
    }
  }

  lemma {:induction false} BlankPrefix(lines: seq<seq<byte>>)
    ensures FirstFrame(lines[..FirstFrame(lines)]) == FirstFrame(lines)
  {
    if lines == [] || StripCr(lines[0]) != [] {
    } else {
      var j := FirstFrame(lines);
      assert lines[..j][1..] == lines[1..][..j - 1];
      BlankPrefix(lines[1..]);
    }
  }

  lemma {:induction false} BlankDecodable(lines: seq<seq<byte>>, decodes: seq<byte> -> bool)
    requires forall i :: 0 <= i < |lines| ==> StripCr(lines[i]) == []
    ensures AllDecodable(lines, decodes) && Frames(lines) == [] && Fits(lines)
  {
    if lines == [] {
    } else {
      assert StripCr(lines[0]) == [];
      assert |lines[0]| <= 1;
      BlankDecodable(lines[1..], decodes);
    }
  }

  lemma OneFrame(line: seq<byte>, decodes: seq<byte> -> bool)
    requires StripCr(line) != [] && Decodable(line, decodes)
    ensures AllDecodable([line], decodes) && Frames([line]) == [StripCr(line)]
  {
    AllDecodableFront(line, [], decodes);
    assert [line] + [] == [line];
  }

  /** A first frame that decodes and is not too long goes out when a read ends right after it. */
  lemma FirstFrameGoesOut(lines: seq<seq<byte>>, j: nat, decodes: seq<byte> -> bool)
    requires j == FirstFrame(lines) < |lines| && Decodable(lines[j], decodes)
    ensures AllDecodable(lines[..j + 1], decodes) && Frames(lines[..j + 1]) == [StripCr(lines[j])]
  {
    hide *;
    assert lines[..j + 1] == lines[..j] + [lines[j]];
    assert forall i :: 0 <= i < j ==> lines[..j][i] == lines[i];
    BlankDecodable(lines[..j], decodes);
    AllDecodableAppend(lines[..j], [lines[j]], decodes);
    FramesAppend(lines[..j], [lines[j]]);
    OneFrame(lines[j], decodes);
    assert [] + [StripCr(lines[j])] == [StripCr(lines[j])];
  }

  /**
   * How a stream is cut does not show at the host exactly when the stream is clean, or its first
   * frame has an error that every fragmentation reports: once a frame has been handed over, a bad
   * one after it takes that back or not depending on the reads.
   */
  lemma HostChunkIndependence(bytes: seq<byte>, decodes: seq<byte> -> bool)
    ensures CutIndependent(bytes, decodes) <==> Clean(bytes, decodes) || FirstError(bytes, decodes).Some?
  {
    if Clean(bytes, decodes) {
      forall chunks: seq<seq<byte>> | Concat(chunks) == bytes
        ensures Seen(chunks, decodes) == (Frames(Complete(bytes)), None)
      {
        assert [] + bytes == bytes;
        ChunksSucceed([], chunks, decodes);
      }
    } else if FirstError(bytes, decodes).Some? {
      forall chunks: seq<seq<byte>> | Concat(chunks) == bytes
        ensures Seen(chunks, decodes) == ([], FirstError(bytes, decodes))
      {
        assert [] + bytes == bytes;
        FirstErrorShows([], chunks, decodes);
      }
    } else {
      var a, b := CutsDiffer(bytes, decodes);
    }
  }

  lemma TwoChunks(a: seq<byte>, b: seq<byte>)
    ensures Concat([a, b]) == a + b
  {
    assert [a, b][1..] == [b];
    OneChunk(b);
  }

  lemma OneChunk(bytes: seq<byte>)
    ensures Concat([bytes]) == bytes
  {
    assert [bytes][1..] == [];
    assert bytes + [] == bytes;
  }

  /** A bad frame also discards the good one decoded earlier in the same push, unlike in two pushes. */
  lemma BadFrameDropsEarlierMessages(good: seq<byte>, bad: seq<byte>, decodes: seq<byte> -> bool)
    requires LF !in good && LF !in bad && StripCr(good) != []
    requires Decodable(good, decodes) && !Decodable(bad, decodes)
    ensures var r := Drain(good + [LF] + (bad + [LF] + []), [], decodes);
            r.error.Some? && r.messages == []
    ensures Drain(good + [LF] + [], [], decodes) == Pushed([], [StripCr(good)], None)
  {
    DrainLine(good, bad + [LF] + [], [], decodes);
    DrainLine(bad, [], [] + [StripCr(good)], decodes);
    DrainLine(good, [], [], decodes);
    NoLine([]);
    assert [] + [StripCr(good)] == [StripCr(good)];
  }
}
