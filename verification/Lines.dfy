/** Newline-delimited framing, stated on whole byte streams. */
module Lines {
  import opened Integers

  const LF: byte := 10
  const CR: byte := 13
  const MAX_FRAME := 16384

  /** Position of the first line feed, or the length of the stream. */
  function FirstLf(bytes: seq<byte>): (k: nat)
    ensures k <= |bytes|
    ensures LF !in bytes[..k]
    ensures k < |bytes| ==> bytes[k] == LF
  {
    if bytes == [] || bytes[0] == LF then 0 else
      var k := 1 + FirstLf(bytes[1..]);
      assert bytes[..k] == [bytes[0]] + bytes[1..][..k - 1];
      k
  }

  /** The lines that a line feed has ended, without it. */
  function Complete(bytes: seq<byte>): seq<seq<byte>>
    decreases |bytes|
  {
    var k := FirstLf(bytes);
    if k == |bytes| then [] else [bytes[..k]] + Complete(bytes[k + 1..])
  }

  /** What follows the last line feed. */
  function Rest(bytes: seq<byte>): (r: seq<byte>)
    ensures LF !in r
    decreases |bytes|
  {
    var k := FirstLf(bytes);
    if k == |bytes| then
      assert bytes[..k] == bytes;
      bytes
    else Rest(bytes[k + 1..])
  }

  /** The stream made of some lines, each ended by a line feed, and an unfinished one. */
  function Unlines(lines: seq<seq<byte>>, rest: seq<byte>): seq<byte> {
    if lines == [] then rest else lines[0] + [LF] + Unlines(lines[1..], rest)
  }

  function StripCr(line: seq<byte>): seq<byte> {
    if line != [] && line[|line| - 1] == CR then line[..|line| - 1] else line
  }

  /** The frames a list of lines carries: one carriage return removed, empty lines skipped. */
  function Frames(lines: seq<seq<byte>>): seq<seq<byte>> {
    if lines == [] then []
    else (if StripCr(lines[0]) == [] then [] else [StripCr(lines[0])]) + Frames(lines[1..])
  }

  function Concat(chunks: seq<seq<byte>>): seq<byte> {
    if chunks == [] then [] else chunks[0] + Concat(chunks[1..])
  }

  predicate Fits(lines: seq<seq<byte>>) {
    forall i :: 0 <= i < |lines| ==> |lines[i]| <= MAX_FRAME
  }

  /** A line carries no frame, or one that is within the size limit and decodes. */
  predicate Decodable(line: seq<byte>, decodes: seq<byte> -> bool) {
    StripCr(line) == [] || (|StripCr(line)| <= MAX_FRAME && decodes(StripCr(line)))
  }

  predicate AllDecodable(lines: seq<seq<byte>>, decodes: seq<byte> -> bool) {
    lines == [] || (Decodable(lines[0], decodes) && AllDecodable(lines[1..], decodes))
  }

  lemma {:induction false} AllDecodableAppend(a: seq<seq<byte>>, b: seq<seq<byte>>, decodes: seq<byte> -> bool)
    ensures AllDecodable(a + b, decodes) <==> AllDecodable(a, decodes) && AllDecodable(b, decodes)
  {
    if a == [] {
      assert a + b == b;
    } else {
      assert (a + b)[1..] == a[1..] + b;
      AllDecodableAppend(a[1..], b, decodes);
    }
  }

  lemma FirstLfAt(line: seq<byte>, tail: seq<byte>)
    requires LF !in line
    ensures FirstLf(line + [LF] + tail) == |line|
  {
    var s := line + [LF] + tail;
    var k := FirstLf(s);
    assert forall i :: 0 <= i < |line| ==> s[i] == line[i];
    assert s[|line|] == LF;
    assert forall i :: 0 <= i < k ==> s[..k][i] == s[i];
  }

  /** A first line and its line feed come off the front of a stream. */
  lemma TakeLine(line: seq<byte>, tail: seq<byte>)
    requires LF !in line
    ensures Complete(line + [LF] + tail) == [line] + Complete(tail)
    ensures Rest(line + [LF] + tail) == Rest(tail)
  {
    var s := line + [LF] + tail;
    FirstLfAt(line, tail);
    assert s[..|line|] == line && s[|line| + 1..] == tail;
  }

  lemma NoLine(bytes: seq<byte>)
    requires LF !in bytes
    ensures Complete(bytes) == [] && Rest(bytes) == bytes
  {
    assert FirstLf(bytes) == |bytes|;
  }

  /** A stream with a line feed in it, taken apart at the first one. */
  lemma FirstLine(bytes: seq<byte>) returns (line: seq<byte>, tail: seq<byte>)
    requires LF in bytes
    ensures LF !in line && |tail| < |bytes| && bytes == line + [LF] + tail
    ensures Complete(bytes) == [line] + Complete(tail) && Rest(bytes) == Rest(tail)
  {
    hide Complete, Rest, FirstLf;
    var k := FirstLf(bytes);
    assert bytes[..|bytes|] == bytes;
    line, tail := bytes[..k], bytes[k + 1..];
    assert bytes == line + [LF] + tail;
    TakeLine(line, tail);
  }

  /** Splitting inverts joining. */
  lemma {:induction false} SplitJoined(lines: seq<seq<byte>>, rest: seq<byte>)
    requires LF !in rest && forall i :: 0 <= i < |lines| ==> LF !in lines[i]
    ensures Complete(Unlines(lines, rest)) == lines && Rest(Unlines(lines, rest)) == rest
  {
    hide Complete, Rest;
    if lines == [] {
      NoLine(rest);
    } else {
      TakeLine(lines[0], Unlines(lines[1..], rest));
      SplitJoined(lines[1..], rest);
    }
  }

  /** Joining inverts splitting: no byte of a stream is lost, added or moved. */
  lemma {:induction false} JoinSplit(bytes: seq<byte>)
    ensures Unlines(Complete(bytes), Rest(bytes)) == bytes
    ensures forall i :: 0 <= i < |Complete(bytes)| ==> LF !in Complete(bytes)[i]
    decreases |bytes|
  {
    hide Complete, Rest;
    if LF !in bytes {
      NoLine(bytes);
    } else {
      var line, tail := FirstLine(bytes);
      JoinSplit(tail);
      assert ([line] + Complete(tail))[1..] == Complete(tail);
    }
  }

  lemma {:induction false} FramesAppend(a: seq<seq<byte>>, b: seq<seq<byte>>)
    ensures Frames(a + b) == Frames(a) + Frames(b)
  {
    if a == [] {
      assert a + b == b;
    } else {
      assert (a + b)[1..] == a[1..] + b;
      FramesAppend(a[1..], b);
    }
  }

  /** Cutting a stream in two: the unfinished line of the first part opens the second. */
  lemma {:induction false} SplitConcat(a: seq<byte>, b: seq<byte>)
    ensures Complete(a + b) == Complete(a) + Complete(Rest(a) + b)
    ensures Rest(a + b) == Rest(Rest(a) + b)
    decreases |a|
  {
    hide Complete, Rest;
    if LF !in a {
      NoLine(a);
      assert [] + Complete(a + b) == Complete(a + b);
    } else {
      var line, tail := FirstLine(a);
      assert a + b == line + [LF] + (tail + b);
      TakeLine(line, tail + b);
      SplitConcat(tail, b);
      assert [line] + (Complete(tail) + Complete(Rest(tail) + b)) ==
             ([line] + Complete(tail)) + Complete(Rest(tail) + b);
    }
  }
}
