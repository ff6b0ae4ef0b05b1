/** The decimal parsers of the watch, over the text of a JSON number token. */
module Numbers {
  import opened Integers

  predicate IsDigit(c: char) {
    '0' <= c <= '9'
  }

  function Digit(c: char): (d: nat)
    requires IsDigit(c)
    ensures d < 10
  {
    c as int - '0' as int
  }

  predicate AllDigits(s: string) {
    s != "" && forall i :: 0 <= i < |s| ==> IsDigit(s[i])
  }

  /** Positional value of a digit string, most significant digit first. */
  function DecimalValue(s: string): nat
    requires forall i :: 0 <= i < |s| ==> IsDigit(s[i])
  {
    if s == "" then 0 else 10 * DecimalValue(s[..|s| - 1]) + Digit(s[|s| - 1])
  }

  /** How many digits the text begins with. */
  function LeadingDigits(s: string): (k: nat)
    ensures k <= |s| && (forall i :: 0 <= i < k ==> IsDigit(s[i])) && (k < |s| ==> !IsDigit(s[k]))
  {
    if s == "" || !IsDigit(s[0]) then 0 else 1 + LeadingDigits(s[1..])
  }

  /** The parsers return the number, `-EINVAL` or `-ERANGE`. */
  datatype Parsed<+T> = Number(value: T) | Invalid | OutOfRange

  /** Decimal printing of a natural number, without leading zeros; parsing inverts it. */
  function Print(n: nat): (s: string)
    ensures AllDigits(s) && DecimalValue(s) == n
  {
    var last := [('0' as int + n % 10) as char];
    if n < 10 then
      assert last[..0] == "";
      last
    else
      var s := Print(n / 10) + last;
      assert s[..|s| - 1] == Print(n / 10);
      s
  }

  function PrintSigned(v: int): string {
    if v < 0 then "-" + Print(-v) else Print(v)
  }

  /** A longer digit string stands for a number at least as large. */
  lemma {:induction false} PrefixValue(s: string, k: nat)
    requires (forall i :: 0 <= i < |s| ==> IsDigit(s[i])) && k <= |s|
    ensures DecimalValue(s[..k]) <= DecimalValue(s)
  {
    if k == |s| {
      assert s[..k] == s;
    } else {
      var t := s[..|s| - 1];
      PrefixValue(t, k);
      assert t[..k] == s[..k];
    }
  }

  /** The digits read so far are beyond the limit, so the digits the text begins with are. */
  lemma LeadingBeyond(s: string, k: nat, limit: nat)
    requires k <= |s| && (forall i :: 0 <= i < k ==> IsDigit(s[i])) && DecimalValue(s[..k]) > limit
    ensures DecimalValue(s[..LeadingDigits(s)]) > limit
  {
    assert s[..LeadingDigits(s)][..k] == s[..k];
    PrefixValue(s[..LeadingDigits(s)], k);
  }

  lemma NextDigit(s: string, k: nat)
    requires k < |s| && forall i :: 0 <= i <= k ==> IsDigit(s[i])
    ensures DecimalValue(s[..k + 1]) == 10 * DecimalValue(s[..k]) + Digit(s[k])
  {
    assert s[..k + 1][..k] == s[..k];
  }

  /** The guard against overflow is exact: it fires only when the next value is out of range. */
  lemma GuardExact(result: nat, digit: nat, limit: nat)
    requires digit < 10 && digit <= limit
    ensures result > (limit - digit) / 10 <==> 10 * result + digit > limit
  {}

  /** The loop shared by the two 64-bit parsers: every intermediate value stays within the limit. */
  method ParseMagnitude(s: string, limit: nat) returns (r: Parsed<nat>)
    requires limit >= 9
    ensures r.Number? <==> LeadingDigits(s) == |s| && DecimalValue(s[..LeadingDigits(s)]) <= limit
    ensures r.Number? ==> r.value == DecimalValue(s[..LeadingDigits(s)])
    ensures r.OutOfRange? <==> DecimalValue(s[..LeadingDigits(s)]) > limit
  {
    var result: nat := 0;
    for i := 0 to |s|
      invariant forall k :: 0 <= k < i ==> IsDigit(s[k])
      invariant result == DecimalValue(s[..i]) <= limit
    {
      if !IsDigit(s[i]) {
        assert LeadingDigits(s) == i;
        return Invalid;
      }
      var digit := Digit(s[i]);
      NextDigit(s, i);
      GuardExact(result, digit, limit);
      if result > (limit - digit) / 10 {
        LeadingBeyond(s, i + 1, limit);
        return OutOfRange;
      }
      result := 10 * result + digit;
    }
    assert LeadingDigits(s) == |s|;
    return Number(result);
  }

  predicate IsU64Text(s: string) {
    AllDigits(s) && DecimalValue(s) <= U64_MAX
  }

  lemma AllLeading(s: string)
    ensures LeadingDigits(s) == |s| <==> forall i :: 0 <= i < |s| ==> IsDigit(s[i])
    ensures s[..|s|] == s
  {}

  method ParseU64(s: string) returns (r: Parsed<U64>)
    ensures r.Number? <==> IsU64Text(s)
    ensures r.Number? ==> r.value == DecimalValue(s)
    ensures r.OutOfRange? <==> DecimalValue(s[..LeadingDigits(s)]) > U64_MAX
  {
    if s == "" {
      return Invalid;
    }
    AllLeading(s);
    var magnitude := ParseMagnitude(s, U64_MAX);
    match magnitude
    case Number(n) => return Number(n);
    case Invalid => return Invalid;
    case OutOfRange => return OutOfRange;
  }

  predicate IsU32Text(s: string) {
    AllDigits(s) && DecimalValue(s) <= U32_MAX
  }

  /** The 32-bit parser multiplies first and tests afterwards, in a 64-bit accumulator. */
  method ParseU32(s: string) returns (r: Parsed<U32>)
    ensures r.Number? <==> IsU32Text(s)
    ensures r.Number? ==> r.value == DecimalValue(s)
    ensures r.OutOfRange? <==> DecimalValue(s[..LeadingDigits(s)]) > U32_MAX
  {
    AllLeading(s);
    if s == "" {
      return Invalid;
    }
    var result: U64 := 0;
    for i := 0 to |s|
      invariant forall k :: 0 <= k < i ==> IsDigit(s[k])
      invariant result == DecimalValue(s[..i]) <= U32_MAX
    {
      if !IsDigit(s[i]) {
        assert LeadingDigits(s) == i;
        return Invalid;
      }
      NextDigit(s, i);
      result := result * 10 + Digit(s[i]);
      if result > U32_MAX {
        LeadingBeyond(s, i + 1, U32_MAX);
        return OutOfRange;
      }
    }
    return Number(result);
  }

  /** What follows an optional minus sign. */
  function Unsigned(s: string): string {
    if s != "" && s[0] == '-' then s[1..] else s
  }

  /** An optional minus sign, then digits whose magnitude is at most 2^63 - 1. */
  predicate IsI64Text(s: string) {
    AllDigits(Unsigned(s)) && DecimalValue(Unsigned(s)) <= I64_MAX
  }

  function SignedValue(s: string): int
    requires IsI64Text(s)
  {
    if s[0] == '-' then 0 - DecimalValue(s[1..]) as int else DecimalValue(s)
  }

  method ParseI64(s: string) returns (r: Parsed<I64>)
    ensures r.Number? <==> IsI64Text(s)
    ensures r.Number? ==> r.value == SignedValue(s)
    ensures r.OutOfRange? <==> DecimalValue(Unsigned(s)[..LeadingDigits(Unsigned(s))]) > I64_MAX
  {
    if s == "" {
      return Invalid;
    }
    var negative := s[0] == '-';
    var digits := if negative then s[1..] else s;
    if digits == "" {
      return Invalid;
    }
    AllLeading(digits);
    var magnitude := ParseMagnitude(digits, I64_MAX);
    match magnitude
    case Number(n) => return Number(if negative then 0 - n as int else n as int);
    case Invalid => return Invalid;
    case OutOfRange => return OutOfRange;
  }

  /** Of the signed 64-bit integers, only -2^63 is refused. */
  lemma PrintedIntegerParses(v: int)
    requires -0x8000_0000_0000_0000 <= v <= I64_MAX
    ensures IsI64Text(PrintSigned(v)) <==> v != -0x8000_0000_0000_0000
    ensures IsI64Text(PrintSigned(v)) ==> SignedValue(PrintSigned(v)) == v
  {
    if v < 0 {
      var digits := Print(-v);
      assert PrintSigned(v)[1..] == digits;
    } else {
      var digits := Print(v);
      assert IsDigit(digits[0]);
    }
  }
}
