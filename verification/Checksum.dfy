/** The FNV-1a checksum that seals a cache record, at the level of the record's bytes. */
module Checksum {
  import opened Integers

  const OFFSET_BASIS: U32 := 2166136261
  const PRIME: U32 := 16777619

  // The checksum field occupies bytes 12 to 15 of the record, after three 32-bit fields.
  const FIELD := 12
  const FIELD_END := 16

  /** Bitwise exclusive or, bit by bit from the least significant one. */
  function Xor(a: nat, b: nat): nat
    decreases a + b
  {
    if a == 0 && b == 0 then 0 else (a % 2 + b % 2) % 2 + 2 * Xor(a / 2, b / 2)
  }

  function XorHash(hash: U32, b: byte): U32 {
    WordWidth();
    XorBound(hash, b, 32);
    Xor(hash, b)
  }

  function Times(hash: U32): U32 {
    (hash * PRIME) % (U32_MAX + 1)
  }

  function Mix(hash: U32, b: byte): U32 {
    Times(XorHash(hash, b))
  }

  function Fnv(hash: U32, bytes: seq<byte>): U32
    decreases |bytes|
  {
    if bytes == [] then hash else Fnv(Mix(hash, bytes[0]), bytes[1..])
  }

  /** The record with its checksum field set to zero, which is what is hashed. */
  function Blanked(record: seq<byte>): seq<byte>
    requires |record| >= FIELD_END
  {
    record[..FIELD] + [0, 0, 0, 0] + record[FIELD_END..]
  }

  /** The 32-bit number stored in four bytes, least significant first. */
  function Word(bytes: seq<byte>): U32
    requires |bytes| == 4
  {
    var b0, b1, b2, b3 := bytes[0] as int, bytes[1] as int, bytes[2] as int, bytes[3] as int;
    b0 + 0x100 * (b1 + 0x100 * (b2 + 0x100 * b3))
  }

  /** The checksum test of the validity check. */
  predicate SealIntact(record: seq<byte>) {
    |record| >= FIELD_END && Word(record[FIELD..FIELD_END]) == Fnv(OFFSET_BASIS, Blanked(record))
  }

  /** The hash loop, over a copy of the record whose checksum field is zero. */
  method ComputeChecksum(record: seq<byte>) returns (hash: U32)
    requires |record| >= FIELD_END
    ensures hash == Fnv(OFFSET_BASIS, Blanked(record))
    ensures hash == Fnv(2166136261, record[..12] + [0, 0, 0, 0] + record[16..])
  {
    var copy := record[..FIELD] + [0, 0, 0, 0] + record[FIELD_END..];
    hash := OFFSET_BASIS;
    for index := 0 to |copy|
      invariant Fnv(hash, copy[index..]) == Fnv(OFFSET_BASIS, copy)
    {
      assert copy[index..][1..] == copy[index + 1..];
      hash := XorHash(hash, copy[index]);
      hash := Times(hash);
    }
  }

  /** Sealing writes the checksum field of the record in place, and nothing else. */
  method Seal(record: array<byte>)
    requires record.Length >= FIELD_END
    modifies record
    ensures SealIntact(record[..])
    ensures record[..FIELD] == old(record[..FIELD]) && record[FIELD_END..] == old(record[FIELD_END..])
  {
    ghost var was := record[..];
    var hash := ComputeChecksum(record[..]);
    BaseDigits(hash);
    var field := [hash % 0x100, hash / 0x100 % 0x100, hash / 0x1_0000 % 0x100, hash / 0x100_0000];
    record[FIELD], record[FIELD + 1] := field[0], field[1];
    record[FIELD + 2], record[FIELD + 3] := field[2], field[3];
    assert record[..FIELD] == was[..FIELD] && record[FIELD_END..] == was[FIELD_END..];
    assert Blanked(record[..]) == Blanked(was) by {
      assert record[..][..FIELD] == was[..FIELD] && record[..][FIELD_END..] == was[FIELD_END..];
    }
    assert record[..][FIELD..FIELD_END] == field;
  }

  lemma BaseDigits(h: U32)
    ensures 0 <= h / 0x100_0000 < 0x100
    ensures Word([h % 0x100, h / 0x100 % 0x100, h / 0x1_0000 % 0x100, h / 0x100_0000]) == h
  {
    assert h / 0x1_0000 == h / 0x100 / 0x100;
    assert h / 0x100_0000 == h / 0x1_0000 / 0x100;
  }

  lemma WordInjective(a: seq<byte>, b: seq<byte>)
    requires |a| == |b| == 4 && Word(a) == Word(b)
    ensures a == b
  {
    var a2, b2 := a[2] as int + 0x100 * a[3] as int, b[2] as int + 0x100 * b[3] as int;
    LowDigit(a[0], b[0], a[1] as int + 0x100 * a2, b[1] as int + 0x100 * b2);
    LowDigit(a[1], b[1], a2, b2);
    LowDigit(a[2], b[2], a[3], b[3]);
  }

  lemma LowDigit(x: byte, y: byte, high: nat, other: nat)
    requires x as int + 0x100 * high == y as int + 0x100 * other
    ensures x == y && high == other
  {}

  /** The prime is odd, hence invertible: 899433627 undoes the multiplication modulo 2^32. */
  lemma TimesInjective(x: U32, y: U32)
    requires Times(x) == Times(y)
    ensures x == y
  {
    var wrapsX, wrapsY := x * PRIME / (U32_MAX + 1), y * PRIME / (U32_MAX + 1);
    assert PRIME * 899433627 == 1 + 3513497 * (U32_MAX + 1);
    assert (x - y) * PRIME == (wrapsX - wrapsY) * (U32_MAX + 1);
    assert x - y == (U32_MAX + 1) * ((wrapsX - wrapsY) * 899433627 - (x - y) * 3513497);
  }

  function PowerOfTwo(n: nat): (p: nat)
    ensures p > 0
  {
    if n == 0 then 1 else 2 * PowerOfTwo(n - 1)
  }

  lemma WordWidth()
    ensures PowerOfTwo(32) == U32_MAX + 1
  {
    EightBits(0);
    EightBits(8);
    EightBits(16);
    EightBits(24);
  }

  lemma EightBits(n: nat)
    ensures PowerOfTwo(n + 8) == 0x100 * PowerOfTwo(n)
  {
    assert PowerOfTwo(n + 4) == 0x10 * PowerOfTwo(n) by {
      assert PowerOfTwo(n + 2) == 4 * PowerOfTwo(n);
    }
    assert PowerOfTwo(n + 6) == 4 * PowerOfTwo(n + 4);
  }

  lemma {:induction false} XorBound(a: nat, b: nat, n: nat)
    requires a < PowerOfTwo(n) && b < PowerOfTwo(n)
    ensures Xor(a, b) < PowerOfTwo(n)
  {
    if n > 0 {
      XorBound(a / 2, b / 2, n - 1);
    }
  }

  lemma {:induction false} XorCommutes(a: nat, b: nat)
    ensures Xor(a, b) == Xor(b, a)
    decreases a + b
  {
    if a + b > 0 {
      XorCommutes(a / 2, b / 2);
    }
  }

  /** Exclusive or with a fixed operand is injective. */
  lemma {:induction false} XorInjective(a: nat, b: nat, x: nat)
    requires Xor(a, x) == Xor(b, x)
    ensures a == b
    decreases a + b + x
  {
    if a + b + x > 0 {
      XorSplit(a, x);
      XorSplit(b, x);
      XorInjective(a / 2, b / 2, x / 2);
    }
  }

  lemma XorSplit(a: nat, x: nat)
    ensures Xor(a, x) / 2 == Xor(a / 2, x / 2) && Xor(a, x) % 2 == (a % 2 + x % 2) % 2
  {}

  /** One hash step loses nothing: it is injective in the hash and in the byte. */
  lemma MixInjective(h: U32, k: U32, b: byte, c: byte)
    ensures Mix(h, b) == Mix(k, b) ==> h == k
    ensures Mix(h, b) == Mix(h, c) ==> b == c
  {
    if Mix(h, b) == Mix(k, b) {
      TimesInjective(XorHash(h, b), XorHash(k, b));
      XorInjective(h, k, b);
    }
    if Mix(h, b) == Mix(h, c) {
      TimesInjective(XorHash(h, b), XorHash(h, c));
      XorCommutes(h, b);
      XorCommutes(h, c);
      XorInjective(b, c, h);
    }
  }

  const PRIME_INVERSE: U32 := 899433627

  /** Multiplying by the inverse of the prime undoes the multiplication. */
  lemma TimesUndone(x: U32)
    ensures (Times(x) * PRIME_INVERSE) % (U32_MAX + 1) == x
  {
    var wraps := x * PRIME / (U32_MAX + 1);
    assert PRIME * PRIME_INVERSE == 1 + 3513497 * (U32_MAX + 1);
    assert Times(x) == x * PRIME - wraps * (U32_MAX + 1);
    assert Times(x) * PRIME_INVERSE == x + (U32_MAX + 1) * (x * 3513497 - wraps * PRIME_INVERSE);
    Remainder(x, x * 3513497 - wraps * PRIME_INVERSE, Times(x) * PRIME_INVERSE);
  }

  lemma Remainder(x: U32, times: int, sum: int)
    requires sum == x + (U32_MAX + 1) * times
    ensures sum % (U32_MAX + 1) == x
  {}

  lemma ParityUndone(a: nat, x: nat)
    ensures ((a % 2 + x % 2) % 2 + x % 2) % 2 == a % 2
  {}

  lemma SameHalves(a: nat, b: nat)
    requires a / 2 == b / 2 && a % 2 == b % 2
    ensures a == b
  {}

  lemma {:induction false} XorUndone(a: nat, x: nat)
    ensures Xor(Xor(a, x), x) == a
    decreases a + x
  {
    if a + x == 0 {
    } else {
      XorUndone(a / 2, x / 2);
      XorUndoneStep(a, x);
    }
  }

  lemma XorUndoneStep(a: nat, x: nat)
    requires Xor(Xor(a / 2, x / 2), x / 2) == a / 2
    ensures Xor(Xor(a, x), x) == a
  {
    hide *;
    XorSplit(a, x);
    XorSplit(Xor(a, x), x);
    ParityUndone(a, x);
    SameHalves(Xor(Xor(a, x), x), a);
  }

  /**
   * A hash step is undone by multiplying back first and then taking the byte off again, so the
   * byte goes in before the multiplication: the order of FNV-1a, not of FNV-1.
   */
  lemma MixUndone(hash: U32, b: byte)
    ensures Xor((Mix(hash, b) * PRIME_INVERSE) % (U32_MAX + 1), b) == hash
  {
    TimesUndone(XorHash(hash, b));
    XorUndone(hash, b);
  }

  lemma {:induction false} FnvInjectiveInHash(h: U32, k: U32, bytes: seq<byte>)
    requires h != k
    ensures Fnv(h, bytes) != Fnv(k, bytes)
    decreases |bytes|
  {
    if bytes == [] {
    } else {
      MixInjective(h, k, bytes[0], bytes[0]);
      FnvInjectiveInHash(Mix(h, bytes[0]), Mix(k, bytes[0]), bytes[1..]);
    }
  }

  /** A change of one byte anywhere in the hashed bytes changes the hash. */
  lemma {:induction false} FnvDetectsByte(hash: U32, bytes: seq<byte>, i: nat, b: byte)
    requires i < |bytes| && bytes[i] != b
    ensures Fnv(hash, bytes[i := b]) != Fnv(hash, bytes)
    decreases |bytes|
  {
    var changed := bytes[i := b];
    if i == 0 {
      assert changed[1..] == bytes[1..];
      MixInjective(hash, hash, b, bytes[0]);
      FnvInjectiveInHash(Mix(hash, b), Mix(hash, bytes[0]), bytes[1..]);
    } else {
      assert changed[1..] == bytes[1..][i - 1 := b];
      FnvDetectsByte(Mix(hash, bytes[0]), bytes[1..], i - 1, b);
    }
  }

  /** Any change confined to the checksum field, of one to four bytes, is refused. */
  lemma FieldCorruptionDetected(record: seq<byte>, field: seq<byte>)
    requires SealIntact(record) && |field| == 4 && field != record[FIELD..FIELD_END]
    ensures !SealIntact(record[..FIELD] + field + record[FIELD_END..])
  {
    var changed := record[..FIELD] + field + record[FIELD_END..];
    assert changed[FIELD..FIELD_END] == field;
    assert Blanked(changed) == Blanked(record);
    if Word(field) == Word(record[FIELD..FIELD_END]) {
      WordInjective(field, record[FIELD..FIELD_END]);
    }
  }

  /** Any one-byte change to a sealed record of any length is refused. */
  lemma OneByteCorruptionDetected(record: seq<byte>, i: nat, b: byte)
    requires SealIntact(record) && i < |record| && record[i] != b
    ensures !SealIntact(record[i := b])
  {
    var changed := record[i := b];
    if FIELD <= i < FIELD_END {
      var field := changed[FIELD..FIELD_END];
      assert field[i - FIELD] == b && record[FIELD..FIELD_END][i - FIELD] == record[i];
      FieldCorruptionDetected(record, field);
      assert changed == record[..FIELD] + field + record[FIELD_END..];
    } else {
      assert Blanked(changed) == Blanked(record)[i := b];
      assert Blanked(record)[i] == record[i];
      FnvDetectsByte(OFFSET_BASIS, Blanked(record), i, b);
      assert changed[FIELD..FIELD_END] == record[FIELD..FIELD_END];
    }
  }
}
