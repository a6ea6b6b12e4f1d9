/** Decimal digit strings and the numbers they denote: BigInt text conversion and padding. */
module Digits {
  import opened Truncation

  predicate IsDigit(c: char) {
    '0' <= c <= '9'
  }

  predicate AllDigits(s: string) {
    forall i :: 0 <= i < |s| ==> IsDigit(s[i])
  }

  function DigitValue(c: char): (v: nat)
    requires IsDigit(c)
    ensures v < 10
  {
    (c as int) - ('0' as int)
  }

  function DigitChar(v: nat): (c: char)
    requires v < 10
    ensures IsDigit(c) && DigitValue(c) == v
  {
    (v + ('0' as int)) as char
  }

  /** BigInt(s), with the empty string read as zero. */
  function Value(s: string): nat
    requires AllDigits(s)
  {
    if s == "" then 0 else Value(s[..|s| - 1]) * 10 + DigitValue(s[|s| - 1])
  }

  /** n.toString(). */
  function DigitsOf(n: nat): (s: string)
    ensures AllDigits(s) && |s| > 0
  {
    if n < 10 then [DigitChar(n)] else DigitsOf(n / 10) + [DigitChar(n % 10)]
  }

  function Zeros(n: nat): (s: string)
    ensures |s| == n && AllDigits(s)
    ensures forall i :: 0 <= i < n ==> s[i] == '0'
  {
    seq(n, _ => '0')
  }

  /** s.padStart(n, '0'). */
  function PadStart(s: string, n: nat): (r: string)
    ensures |r| >= n && |r| >= |s|
  {
    if |s| < n then Zeros(n - |s|) + s else s
  }

  /** s.padEnd(n, '0'). */
  function PadEnd(s: string, n: nat): (r: string)
    ensures |r| >= n
  {
    if |s| < n then s + Zeros(n - |s|) else s
  }

  lemma ValueSnoc(s: string, c: char)
    requires AllDigits(s) && IsDigit(c)
    ensures AllDigits(s + [c]) && Value(s + [c]) == Value(s) * 10 + DigitValue(c)
  {
    assert (s + [c])[..|s|] == s;
  }

  /** Appending zeros moves the value up by as many places. */
  lemma {:induction false} ValuePadded(s: string, n: nat)
    requires AllDigits(s)
    ensures AllDigits(s + Zeros(n)) && Value(s + Zeros(n)) == Shift(Value(s), n)
  {
    if n == 0 {
      assert s + Zeros(0) == s;
    } else {
      ValuePadded(s, n - 1);
      ValueSnoc(s + Zeros(n - 1), '0');
      assert s + Zeros(n) == s + Zeros(n - 1) + ['0'];
    }
  }

  /** Prefixing zeros changes nothing. */
  lemma {:induction false} ValuePrefixed(n: nat, s: string)
    requires AllDigits(s)
    ensures AllDigits(Zeros(n) + s) && Value(Zeros(n) + s) == Value(s)
    decreases |s|, n
  {
    if s != "" {
      var front := s[..|s| - 1];
      ValuePrefixed(n, front);
      assert Zeros(n) + s == (Zeros(n) + front) + [s[|s| - 1]];
      ValueSnoc(Zeros(n) + front, s[|s| - 1]);
    } else if n > 0 {
      ValuePrefixed(n - 1, "");
      assert Zeros(n) + "" == (Zeros(n - 1) + "") + ['0'];
      ValueSnoc(Zeros(n - 1) + "", '0');
    }
  }

  /** Keeping the first k digits drops as many places as there are digits after them. */
  lemma {:induction false} ValuePrefix(s: string, k: nat)
    requires AllDigits(s) && k <= |s|
    ensures AllDigits(s[..k]) && Value(s[..k]) == Shift(Value(s), k - |s|)
    decreases |s| - k
  {
    if k == |s| {
      assert s[..k] == s;
    } else {
      ValuePrefix(s, k + 1);
      assert s[..k + 1][..k] == s[..k];
      ShiftStep(Value(s), k + 1 - |s|);
    }
  }

  /** BigInt(n.toString()) is n. */
  lemma {:induction false} ValueOfDigits(n: nat)
    ensures Value(DigitsOf(n)) == n
  {
    if n >= 10 {
      ValueOfDigits(n / 10);
      var s := DigitsOf(n);
      assert s[..|s| - 1] == DigitsOf(n / 10);
    }
  }

  /** n.toString() has no leading zero, except for "0" itself. */
  lemma {:induction false} DigitsOfNoLeadingZero(n: nat)
    ensures DigitsOf(n)[0] == '0' <==> n == 0
  {
    if n >= 10 {
      DigitsOfNoLeadingZero(n / 10);
    }
  }
}
