/** Go's strconv.ParseUint(s, 10, 64), the only conversion the backend uses. */
module StrConv {
  import opened Common

  /** 2^64: uint64 arithmetic in Go is modulo this. */
  const Modulus: nat := MaxUint64 + 1

  /** ParseUint's cutoff for base 10: the smallest n for which n * 10 overflows. */
  const Cutoff: nat := MaxUint64 / 10 + 1

  predicate IsDigit(c: char) {
    '0' <= c <= '9'
  }

  predicate AllDigits(s: string) {
    forall i :: 0 <= i < |s| ==> IsDigit(s[i])
  }

  function DigitOf(c: char): (d: nat)
    requires IsDigit(c)
    ensures d < 10
  {
    (c as int) - ('0' as int)
  }

  /** The base-10 value of a digit string, read from the left as ParseUint reads it. */
  function DigitsValue(s: string): nat
    requires AllDigits(s)
  {
    if s == [] then 0 else DigitsValue(s[..|s| - 1]) * 10 + DigitOf(s[|s| - 1])
  }

  /** The length of the longest prefix of s made of digits. */
  function LeadingDigits(s: string): (k: nat)
    ensures k <= |s| && AllDigits(s[..k])
    ensures k < |s| ==> !IsDigit(s[k])
  {
    if s == [] || !IsDigit(s[0]) then 0
    else
      var k := 1 + LeadingDigits(s[1..]);
      assert s[..k] == [s[0]] + s[1..][..k - 1];
      k
  }

  /** strconv.ParseUint(s, 10, 64): an empty input is a syntax error, and the
      digits are then consumed from the left, each step either rejecting a
      non-digit, or detecting a 64-bit overflow, or accumulating the digit. */
  function ParseUint(s: string): Result<uint64> {
    if s == [] then Err(SyntaxError(s)) else ParseDigitsFrom(s, 0, 0)
  }

  /** One run of ParseUint's loop from index i with the accumulator n. Go
      checks n >= cutoff (n * 10 would overflow), then adds the digit in
      wrapping uint64 arithmetic and takes a wrapped sum as overflow. Its
      further check n1 > maxVal cannot fire when bitSize is 64. */
  function ParseDigitsFrom(s: string, i: nat, n: uint64): Result<uint64>
    requires i <= |s|
    decreases |s| - i
  {
    if i == |s| then Ok(n)
    else if !IsDigit(s[i]) then Err(SyntaxError(s))
    else if n >= Cutoff then Err(RangeError(s))
    else
      var shifted := n * 10;
      var sum := (shifted + DigitOf(s[i])) % Modulus;
      if sum < shifted then Err(RangeError(s)) else ParseDigitsFrom(s, i + 1, sum)
  }

  /** ParseUint's outcome stated without the loop: the empty string and a
      non-digit are syntax errors, unless the digits before the first
      non-digit already exceed 2^64 - 1, which is a range error. */
  function ParseUintSpec(s: string): Result<uint64> {
    var k := LeadingDigits(s);
    if s == [] then Err(SyntaxError(s))
    else if DigitsValue(s[..k]) > MaxUint64 then Err(RangeError(s))
    else if k < |s| then Err(SyntaxError(s))
    else
      assert s[..k] == s;
      Ok(DigitsValue(s))
  }

  /** Appending a digit multiplies the value by ten and adds the digit. */
  lemma DigitsValueStep(s: string, i: nat)
    requires i < |s| && AllDigits(s[..i + 1])
    ensures AllDigits(s[..i])
    ensures DigitsValue(s[..i + 1]) == DigitsValue(s[..i]) * 10 + DigitOf(s[i])
  {
    assert s[..i + 1][..i] == s[..i];
  }

  /** A longer digit prefix never has a smaller value. */
  lemma {:induction false} DigitsValueMonotone(s: string, j: nat, k: nat)
    requires j <= k <= |s| && AllDigits(s[..k])
    ensures AllDigits(s[..j]) && DigitsValue(s[..j]) <= DigitsValue(s[..k])
    decreases k
  {
    assert s[..k][..j] == s[..j];
    if j < k {
      DigitsValueStep(s, k - 1);
      DigitsValueMonotone(s, j, k - 1);
    }
  }

  /** Go's overflow test for one step agrees with the mathematical one. */
  lemma StepOverflow(n: uint64, d: nat)
    requires d < 10
    ensures (n >= Cutoff || (n * 10 + d) % Modulus < n * 10) <==> n * 10 + d > MaxUint64
    ensures n < Cutoff && n * 10 + d <= MaxUint64 ==> (n * 10 + d) % Modulus == n * 10 + d
  {
    if n < Cutoff {
      assert n * 10 <= MaxUint64 - 5;
      if n * 10 + d > MaxUint64 {
        assert (n * 10 + d) % Modulus == n * 10 + d - Modulus;
      }
    }
  }

  /** One step of the loop on a digit: Go's overflow tests amount to
      "ten times the value so far plus the digit exceeds 2^64 - 1". */
  lemma ParseStep(s: string, i: nat, n: uint64)
    requires i < |s| && IsDigit(s[i])
    ensures var v := n * 10 + DigitOf(s[i]);
      ParseDigitsFrom(s, i, n) == if v > MaxUint64 then Err(RangeError(s)) else ParseDigitsFrom(s, i + 1, v)
  {
    StepOverflow(n, DigitOf(s[i]));
  }

  lemma {:induction false} ParseDigitsFromIsSpec(s: string, i: nat, n: uint64)
    requires s != [] && i <= LeadingDigits(s)
    requires AllDigits(s[..i]) && n == DigitsValue(s[..i])
    ensures ParseDigitsFrom(s, i, n) == ParseUintSpec(s)
    decreases |s| - i
  {
    var k := LeadingDigits(s);
    if i == k {
      if k == |s| {
        assert s[..k] == s;
      }
    } else {
      DigitsValueMonotone(s, i + 1, k);
      DigitsValueStep(s, i);
      var d := DigitOf(s[i]);
      ParseStep(s, i, n);
      if n * 10 + d <= MaxUint64 {
        ParseDigitsFromIsSpec(s, i + 1, n * 10 + d);
      }
    }
  }

  /** The loop computes exactly ParseUintSpec. */
  lemma ParseUintIsSpec(s: string)
    ensures ParseUint(s) == ParseUintSpec(s)
  {
    if s != [] {
      assert s[..0] == [];
      ParseDigitsFromIsSpec(s, 0, 0);
    }
  }

  /** ParseUint succeeds exactly on non-empty digit strings whose value fits in
      64 bits, and then returns that value; every other input, including a
      sign, an underscore or a letter, is an error naming the input. */
  lemma ParseUintAccepts(s: string)
    ensures ParseUint(s).Ok? <==> s != [] && AllDigits(s) && DigitsValue(s) <= MaxUint64
    ensures ParseUint(s).Ok? ==> AllDigits(s) && ParseUint(s).value == DigitsValue(s)
    ensures ParseUint(s).Err? ==> ParseUint(s).error in {SyntaxError(s), RangeError(s)}
  {
    ParseUintIsSpec(s);
    var k := LeadingDigits(s);
    if AllDigits(s) {
      assert s[..k] == s;
    }
  }

  /** The range error is reported exactly when the digits before the first
      non-digit overflow, even if a non-digit follows them. */
  lemma ParseUintRange(s: string)
    ensures ParseUint(s) == Err(RangeError(s)) <==> DigitsValue(s[..LeadingDigits(s)]) > MaxUint64
  {
    ParseUintIsSpec(s);
    if s == [] {
      assert s[..LeadingDigits(s)] == [];
    }
  }

  /** A non-empty digit string is a range error exactly when it overflows:
      it is never a syntax error. */
  lemma ParseUintOfDigits(s: string)
    requires s != [] && AllDigits(s)
    ensures ParseUint(s) == if DigitsValue(s) <= MaxUint64 then Ok(DigitsValue(s)) else Err(RangeError(s))
  {
    ParseUintAccepts(s);
    ParseUintRange(s);
    assert s[..LeadingDigits(s)] == s;
  }
}
