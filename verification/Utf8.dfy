/** The UTF-8 validator of the watch, against sections 3 and 4 of RFC 3629. */
module Utf8 {
  import opened Integers

  predicate IsScalar(c: int) {
    0 <= c <= 0xd7ff || 0xe000 <= c <= 0x10ffff
  }

  /** A Unicode scalar value: a code point that is not a surrogate. */
  type Scalar = c: int | 0 <= c <= 0xd7ff || 0xe000 <= c <= 0x10ffff

  function Tail(c: nat): byte {
    0x80 + c % 0x40
  }

  /** The six payload bits of a continuation byte. */
  function Low6(b: byte): nat {
    b as int % 0x40
  }

  /** Section 3 of RFC 3629: the bits of the value spread over one to four bytes. */
  function Encode(c: Scalar): (r: seq<byte>)
    ensures 1 <= |r| <= 4
  {
    if c < 0x80 then
      var b0: byte := c;
      [b0]
    else if c < 0x800 then
      var b0: byte := 0xc0 + c / 0x40;
      [b0, Tail(c)]
    else if c < 0x10000 then
      var b0: byte := 0xe0 + c / 0x40 / 0x40;
      [b0, Tail(c / 0x40), Tail(c)]
    else
      var b0: byte := 0xf0 + c / 0x40 / 0x40 / 0x40;
      [b0, Tail(c / 0x40 / 0x40), Tail(c / 0x40), Tail(c)]
  }

  function EncodeAll(cs: seq<Scalar>): seq<byte> {
    if cs == [] then [] else Encode(cs[0]) + EncodeAll(cs[1..])
  }

  predicate IsTail(b: byte) {
    0x80 <= b <= 0xbf
  }

  /** Section 4 of RFC 3629: the length of the character the grammar finds at the front, or zero. */
  function CharLength(b: seq<byte>): (n: nat)
    ensures n <= 4 && n <= |b|
  {
    if |b| >= 1 && b[0] <= 0x7f then 1
    else if |b| >= 2 && 0xc2 <= b[0] <= 0xdf && IsTail(b[1]) then 2
    else if |b| >= 3 && IsTail(b[2]) &&
            ((b[0] == 0xe0 && 0xa0 <= b[1] <= 0xbf) ||
             (0xe1 <= b[0] <= 0xec && IsTail(b[1])) ||
             (b[0] == 0xed && 0x80 <= b[1] <= 0x9f) ||
             (0xee <= b[0] <= 0xef && IsTail(b[1]))) then 3
    else if |b| >= 4 && IsTail(b[2]) && IsTail(b[3]) &&
            ((b[0] == 0xf0 && 0x90 <= b[1] <= 0xbf) ||
             (0xf1 <= b[0] <= 0xf3 && IsTail(b[1])) ||
             (b[0] == 0xf4 && 0x80 <= b[1] <= 0x8f)) then 4
    else 0
  }

  /** The byte string is a sequence of characters of the grammar. */
  predicate WellFormed(b: seq<byte>)
    decreases |b|
  {
    b == [] || (CharLength(b) > 0 && WellFormed(b[CharLength(b)..]))
  }

  /** The value a character of the grammar stands for. */
  function Value(b: seq<byte>): int
    requires CharLength(b) > 0
  {
    match CharLength(b)
    case 1 => b[0]
    case 2 => (b[0] as int - 0xc0) * 0x40 + Low6(b[1])
    case 3 => ((b[0] as int - 0xe0) * 0x40 + Low6(b[1])) * 0x40 + Low6(b[2])
    case _ => (((b[0] as int - 0xf0) * 0x40 + Low6(b[1])) * 0x40 + Low6(b[2])) * 0x40 + Low6(b[3])
  }

  function Decode(b: seq<byte>): (cs: seq<Scalar>)
    requires WellFormed(b)
    decreases |b|
  {
    if b == [] then [] else
      ValueEncodes(b);
      [Value(b)] + Decode(b[CharLength(b)..])
  }

  /** Appending six bits and splitting them off again. */
  lemma AppendBits(high: nat, b: byte)
    requires IsTail(b)
    ensures (high * 0x40 + Low6(b)) / 0x40 == high && Tail(high * 0x40 + Low6(b)) == b
  {}

  lemma SplitBits(c: nat)
    ensures IsTail(Tail(c)) && c / 0x40 * 0x40 + Low6(Tail(c)) == c
  {}

  /** A character of the grammar is the encoding of its value. */
  lemma ValueEncodes(b: seq<byte>)
    requires CharLength(b) > 0
    ensures IsScalar(Value(b)) && Encode(Value(b)) == b[..CharLength(b)]
  {
    var n := CharLength(b);
    if n == 2 {
      AppendBits(b[0] as int - 0xc0, b[1]);
    } else if n == 3 {
      ThreeByteValue(b);
    } else if n == 4 {
      FourByteValue(b);
    }
  }

  lemma ThreeByteValue(b: seq<byte>)
    requires CharLength(b) == 3
    ensures IsScalar(Value(b)) && Encode(Value(b)) == b[..3]
  {
    var high := b[0] as int - 0xe0;
    AppendBits(high, b[1]);
    AppendBits(high * 0x40 + Low6(b[1]), b[2]);
  }

  lemma FourByteValue(b: seq<byte>)
    requires CharLength(b) == 4
    ensures IsScalar(Value(b)) && Encode(Value(b)) == b[..4]
  {
    var high := b[0] as int - 0xf0;
    AppendBits(high, b[1]);
    AppendBits(high * 0x40 + Low6(b[1]), b[2]);
    AppendBits((high * 0x40 + Low6(b[1])) * 0x40 + Low6(b[2]), b[3]);
  }

  /** The encoding of a value, followed by anything, is one character of the grammar. */
  lemma EncodingIsChar(c: Scalar, rest: seq<byte>)
    ensures CharLength(Encode(c) + rest) == |Encode(c)|
    ensures Value(Encode(c) + rest) == c
  {
    var e := Encode(c);
    var b := e + rest;
    assert b[..|e|] == e;
    SplitBits(c);
    SplitBits(c / 0x40);
    SplitBits(c / 0x40 / 0x40);
  }

  /** Decoding inverts encoding, so an encoding determines its scalar values. */
  lemma {:induction false} DecodeEncode(cs: seq<Scalar>)
    ensures WellFormed(EncodeAll(cs)) && Decode(EncodeAll(cs)) == cs
  {
    if cs == [] {
    } else {
      var b := EncodeAll(cs);
      EncodingIsChar(cs[0], EncodeAll(cs[1..]));
      assert b[CharLength(b)..] == EncodeAll(cs[1..]);
      DecodeEncode(cs[1..]);
    }
  }

  /** Encoding inverts decoding, on every byte string of the grammar. */
  lemma {:induction false} EncodeDecode(b: seq<byte>)
    requires WellFormed(b)
    ensures EncodeAll(Decode(b)) == b
    decreases |b|
  {
    if b == [] {
    } else {
      ValueEncodes(b);
      EncodeDecode(b[CharLength(b)..]);
    }
  }

  /** The byte string encodes some sequence of scalar values. */
  ghost predicate IsEncoding(b: seq<byte>) {
    exists cs: seq<Scalar> :: EncodeAll(cs) == b
  }

  /** The grammar of section 4 accepts exactly the encodings of section 3. */
  lemma WellFormedIffEncoding(b: seq<byte>)
    ensures WellFormed(b) <==> IsEncoding(b)
  {
    if WellFormed(b) {
      EncodeDecode(b);
    }
    if IsEncoding(b) {
      var cs: seq<Scalar> :| EncodeAll(cs) == b;
      DecodeEncode(cs);
    }
  }

  /** No byte string encodes two different sequences. */
  lemma EncodingUnique(cs: seq<Scalar>, ds: seq<Scalar>)
    requires EncodeAll(cs) == EncodeAll(ds)
    ensures cs == ds
  {
    DecodeEncode(cs);
    DecodeEncode(ds);
  }

  /** The value of a lead byte's payload followed by the payloads of continuation bytes. */
  function Accumulate(lead: nat, tail: seq<byte>): nat {
    if tail == [] then lead else Accumulate(lead, tail[..|tail| - 1]) * 0x40 + Low6(tail[|tail| - 1])
  }

  /** The validator's verdict on a character, from its accumulated code point. */
  predicate Acceptable(continuation: nat, codepoint: nat) {
    !((continuation == 1 && codepoint < 0x80) ||
      (continuation == 2 && codepoint < 0x800) ||
      (continuation == 3 && codepoint < 0x10000) || codepoint > 0x10ffff ||
      (codepoint >= 0xd800 && codepoint <= 0xdfff))
  }

  lemma AccumulateTails(lead: nat, t: seq<byte>)
    ensures |t| == 1 ==> Accumulate(lead, t) == lead * 0x40 + Low6(t[0])
    ensures |t| == 2 ==> Accumulate(lead, t) == (lead * 0x40 + Low6(t[0])) * 0x40 + Low6(t[1])
    ensures |t| == 3 ==> Accumulate(lead, t) == ((lead * 0x40 + Low6(t[0])) * 0x40 + Low6(t[1])) * 0x40 + Low6(t[2])
  {
    if |t| == 1 {
      assert t[..0] == [];
    } else if |t| == 2 {
      assert t[..1] == [t[0]] && [t[0]][..0] == [];
      assert Accumulate(lead, [t[0]]) == lead * 0x40 + Low6(t[0]);
    } else if |t| == 3 {
      assert t[..2] == [t[0], t[1]] && [t[0], t[1]][..1] == [t[0]] && [t[0]][..0] == [];
      assert Accumulate(lead, [t[0]]) == lead * 0x40 + Low6(t[0]);
      assert Accumulate(lead, [t[0], t[1]]) == Accumulate(lead, [t[0]]) * 0x40 + Low6(t[1]);
    }
  }

  /** Arithmetic on the code point amounts to the byte ranges of the grammar. */
  lemma AcceptableIffChar(b: seq<byte>, continuation: nat, lead: nat)
    requires 1 <= continuation <= 3 && continuation + 1 <= |b|
    requires Lead(b[0], continuation, lead)
    requires forall k :: 1 <= k <= continuation ==> IsTail(b[k])
    ensures var codepoint := Accumulate(lead, b[1..continuation + 1]);
            CharLength(b) == if Acceptable(continuation, codepoint) then continuation + 1 else 0
  {
    AccumulateTails(lead, b[1..continuation + 1]);
    if continuation == 1 {
      AcceptableTwo(b, lead);
    } else if continuation == 2 {
      AcceptableThree(b, lead);
    } else {
      AcceptableFour(b, lead);
    }
  }

  /** The lead byte announces this many continuation bytes and carries these bits. */
  predicate Lead(first: byte, continuation: nat, bits: nat) {
    (continuation == 1 && 0xc0 <= first <= 0xdf && bits == first as int - 0xc0) ||
    (continuation == 2 && 0xe0 <= first <= 0xef && bits == first as int - 0xe0) ||
    (continuation == 3 && 0xf0 <= first <= 0xf7 && bits == first as int - 0xf0)
  }

  /** The mask tests on the lead byte, read as arithmetic. */
  lemma LeadMasks(first: byte)
    ensures first / 0x20 == 0x06 ==> Lead(first, 1, first as int % 0x20)
    ensures first / 0x20 != 0x06 && first / 0x10 == 0x0e ==> Lead(first, 2, first as int % 0x10)
    ensures first / 0x20 != 0x06 && first / 0x10 != 0x0e && first / 0x08 == 0x1e ==> Lead(first, 3, first as int % 0x08)
    ensures first / 0x20 != 0x06 && first / 0x10 != 0x0e && first / 0x08 != 0x1e ==> first < 0xc0 || first > 0xf7
  {}

  lemma TailMask(next: byte)
    ensures next / 0x40 == 0x02 <==> IsTail(next)
    ensures IsTail(next) ==> Low6(next) == next as int - 0x80
  {}

  lemma AcceptableTwo(b: seq<byte>, lead: nat)
    requires |b| >= 2 && Lead(b[0], 1, lead) && IsTail(b[1])
    ensures CharLength(b) == if Acceptable(1, lead * 0x40 + Low6(b[1])) then 2 else 0
  {
    TailMask(b[1]);
  }

  lemma AcceptableThree(b: seq<byte>, lead: nat)
    requires |b| >= 3 && Lead(b[0], 2, lead) && IsTail(b[1]) && IsTail(b[2])
    ensures CharLength(b) == if Acceptable(2, (lead * 0x40 + Low6(b[1])) * 0x40 + Low6(b[2])) then 3 else 0
  {
    TailMask(b[1]);
    TailMask(b[2]);
  }

  lemma AcceptableFour(b: seq<byte>, lead: nat)
    requires |b| >= 4 && Lead(b[0], 3, lead) && IsTail(b[1]) && IsTail(b[2]) && IsTail(b[3])
    ensures var codepoint := ((lead * 0x40 + Low6(b[1])) * 0x40 + Low6(b[2])) * 0x40 + Low6(b[3]);
            CharLength(b) == if Acceptable(3, codepoint) then 4 else 0
  {
    TailMask(b[1]);
    TailMask(b[2]);
    TailMask(b[3]);
  }

  /** Without enough continuation bytes, or with a stray one, the grammar finds no character. */
  lemma NoChar(b: seq<byte>, continuation: nat, lead: nat)
    requires b != [] && Lead(b[0], continuation, lead)
    requires |b| <= continuation || exists k :: 1 <= k <= continuation && !IsTail(b[k])
    ensures CharLength(b) == 0
  {}

  /** Skipping one character of the grammar does not change the verdict on the rest. */
  lemma SkipChar(bytes: seq<byte>, i: nat, n: nat)
    requires i < |bytes| && n == CharLength(bytes[i..])
    ensures n == 0 ==> !WellFormed(bytes[i..])
    ensures n > 0 ==> i + n <= |bytes| && WellFormed(bytes[i..]) == WellFormed(bytes[i + n..])
  {
    if n > 0 {
      assert bytes[i..][n..] == bytes[i + n..];
    }
  }

  /** The inner loop of the validator: accumulate the continuation bytes of one character. */
  method ReadContinuation(bytes: seq<byte>, start: nat, continuation: nat, lead: nat)
    returns (complete: bool, codepoint: nat)
    requires start + continuation <= |bytes|
    ensures complete <==> forall k :: start <= k < start + continuation ==> IsTail(bytes[k])
    ensures complete ==> codepoint == Accumulate(lead, bytes[start..start + continuation])
  {
    codepoint := lead;
    for j := 0 to continuation
      invariant codepoint == Accumulate(lead, bytes[start..start + j])
      invariant forall k :: start <= k < start + j ==> IsTail(bytes[k])
    {
      var next := bytes[start + j];
      TailMask(next);
      if next / 0x40 != 0x02 {
        return false, codepoint;
      }
      codepoint := codepoint * 0x40 + Low6(next);
      assert bytes[start..start + j + 1][..j] == bytes[start..start + j];
    }
    return true, codepoint;
  }

  /** One round of the validator's loop: the character at `start`, and where the next one begins. */
  method CheckChar(bytes: seq<byte>, start: nat) returns (valid: bool, next: nat)
    requires start < |bytes|
    ensures valid <==> CharLength(bytes[start..]) > 0
    ensures valid ==> next == start + CharLength(bytes[start..])
  {
    ghost var rest := bytes[start..];
    var first := bytes[start];
    if first < 0x80 {
      return true, start + 1;
    }
    var continuation, codepoint := ReadLead(first);
    next := start + 1 + continuation;
    if continuation == 0 {
      return false, next;
    }
    ghost var lead := codepoint;
    if next > |bytes| {
      NoChar(rest, continuation, lead);
      return false, next;
    }
    valid, codepoint := ReadContinuation(bytes, start + 1, continuation, codepoint);
    if !valid {
      var k :| start + 1 <= k < start + 1 + continuation && !IsTail(bytes[k]);
      assert rest[k - start] == bytes[k];
      NoChar(rest, continuation, lead);
      return false, next;
    }
    assert rest[1..continuation + 1] == bytes[start + 1..next];
    assert forall k :: 1 <= k <= continuation ==> rest[k] == bytes[start + k];
    AcceptableIffChar(rest, continuation, lead);
    valid := Acceptable(continuation, codepoint);
  }

  /** The lead-byte dispatch; a `continuation` of zero stands for the rejecting branch. */
  method ReadLead(first: byte) returns (continuation: nat, bits: nat)
    requires first >= 0x80
    ensures continuation > 0 ==> Lead(first, continuation, bits)
    ensures continuation == 0 ==> first < 0xc0 || first > 0xf7
  {
    LeadMasks(first);
    if first / 0x20 == 0x06 {
      return 1, first as int % 0x20;
    } else if first / 0x10 == 0x0e {
      return 2, first as int % 0x10;
    } else if first / 0x08 == 0x1e {
      return 3, first as int % 0x08;
    }
    return 0, 0;
  }

  /** The validator: true exactly of the encodings of sequences of scalar values. */
  method ValidUtf8(bytes: seq<byte>) returns (valid: bool)
    ensures valid <==> IsEncoding(bytes)
  {
    WellFormedIffEncoding(bytes);
    hide IsEncoding;
    var i := 0;
    while i < |bytes|
      invariant 0 <= i <= |bytes|
      invariant WellFormed(bytes[i..]) == WellFormed(bytes)
    {
      SkipChar(bytes, i, CharLength(bytes[i..]));
      var ok, next := CheckChar(bytes, i);
      if !ok {
        return false;
      }
      i := next;
    }
    return true;
  }
}
