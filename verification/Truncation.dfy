/**
 BigInt division, powers of ten, and the few non-linear facts the decimal proofs rest on.

 A BigInt quotient truncates toward zero and its remainder takes the sign of the dividend;
 Dafny's `/` and `%` are Euclidean, so both operators are defined here.
 */
module Truncation {

  function Abs(x: int): nat {
    if x < 0 then -x else x
  }

  /** BigInt `a / b`. */
  function TruncDiv(a: int, b: int): int
    requires b != 0
  {
    if (a < 0) == (b < 0) then Abs(a) / Abs(b) else -(Abs(a) / Abs(b))
  }

  /** BigInt `a % b`. */
  function TruncMod(a: int, b: int): int
    requires b != 0
  {
    if a < 0 then -(Abs(a) % Abs(b)) else Abs(a) % Abs(b)
  }

  /** The law that ties the two operators together, and the remainder's size and sign. */
  lemma TruncDivMod(a: int, b: int)
    requires b != 0
    ensures a == TruncDiv(a, b) * b + TruncMod(a, b)
    ensures Abs(TruncMod(a, b)) < Abs(b)
    ensures a >= 0 ==> TruncMod(a, b) >= 0
    ensures a <= 0 ==> TruncMod(a, b) <= 0
    ensures a >= 0 ==> TruncDiv(a, b) * b >= 0
    ensures a <= 0 ==> TruncDiv(a, b) * b <= 0
  {
    NatDivMod(Abs(a), Abs(b));
    TruncDivTimes(a, b);
  }

  lemma TruncDivTimes(a: int, b: int)
    requires b != 0
    ensures TruncDiv(a, b) * b == if a < 0 then -(Abs(a) / Abs(b) * Abs(b)) else Abs(a) / Abs(b) * Abs(b)
  {
    MulSigns(Abs(a) / Abs(b), Abs(b));
  }

  lemma NatDivMod(a: nat, b: nat)
    requires b > 0
    ensures a == (a / b) * b + a % b && 0 <= a % b < b && 0 <= (a / b) * b
  {
  }

  lemma MulSigns(a: int, b: int)
    ensures (-a) * b == -(a * b) && a * (-b) == -(a * b) && (-a) * (-b) == a * b
  {
  }

  /** 10^n. */
  function Pow10(n: nat): (p: nat)
    ensures p > 0
  {
    if n == 0 then 1 else 10 * Pow10(n - 1)
  }

  lemma {:induction false} Pow10Add(m: nat, n: nat)
    ensures Pow10(m + n) == Pow10(m) * Pow10(n)
  {
    if m > 0 {
      Pow10Add(m - 1, n);
      assert m + n - 1 == (m - 1) + n;
      MulAssoc(10, Pow10(m - 1), Pow10(n));
    }
  }

  lemma MulAssoc(a: int, b: int, c: int)
    ensures (a * b) * c == a * (b * c)
  {
  }

  lemma MulMonotone(a: int, b: int, c: int)
    requires a <= b && 0 <= c
    ensures a * c <= b * c
  {
    assert (b - a) * c >= 0;
  }

  /** Euclidean quotients by a positive number are characterised by their bounds. */
  lemma QuotientUnique(n: int, d: int, q: int)
    requires d > 0
    requires q * d <= n < q * d + d
    ensures n / d == q
  {
    var k := n / d;
    NotBelow(q, k, d, n);
    NotBelow(k, q, d, n);
  }

  lemma NotBelow(k: int, q: int, d: int, n: int)
    requires d > 0 && q * d <= n < k * d + d
    ensures q <= k
  {
    if k + 1 <= q {
      MulMonotone(k + 1, q, d);
    }
  }

  /** Dividing twice is dividing by the product. */
  lemma QuotientTwice(n: nat, a: nat, b: nat)
    requires a > 0 && b > 0
    ensures a * b > 0
    ensures (n / a) / b == n / (a * b)
  {
    var q := n / a;
    var k := q / b;
    assert a * b > 0;
    assert k * b <= q <= k * b + b - 1;
    assert q * a <= n < q * a + a;
    MulMonotone(k * b, q, a);
    MulMonotone(q, k * b + b - 1, a);
    assert (k * b) * a == k * (a * b);
    assert (k * b + b - 1) * a == k * (a * b) + a * b - a;
    QuotientUnique(n, a * b, k);
  }

  // ---------------------------------------------------------------------------
  // Moving the decimal point
  // ---------------------------------------------------------------------------

  /** floor(n * 10^e), one place at a time. */
  function Shift(n: nat, e: int): nat
    decreases Abs(e)
  {
    if e > 0 then 10 * Shift(n, e - 1) else if e < 0 then Shift(n, e + 1) / 10 else n
  }

  lemma {:induction false} ShiftLeft(n: nat, k: nat)
    ensures Shift(n, k) == n * Pow10(k)
  {
    if k > 0 {
      ShiftLeft(n, k - 1);
      Tenfold(n, Pow10(k - 1));
    }
  }

  lemma Tenfold(n: nat, p: nat)
    ensures 10 * (n * p) == n * (10 * p)
  {
  }

  /** Moving the point left by one place drops a digit. */
  lemma ShiftStep(n: nat, e: int)
    ensures Shift(n, e - 1) == Shift(n, e) / 10
  {
  }

  /** Scaling by 10^k and then moving the point left is moving it by the difference. */
  lemma {:induction false} ShiftScaled(n: nat, k: nat, j: nat)
    ensures Shift(n, k - j) == n * Pow10(k) / Pow10(j)
    decreases j
  {
    ShiftLeft(n, k);
    if j > 0 {
      ShiftScaled(n, k, j - 1);
      ShiftStep(n, k - (j - 1));
      QuotientTwice(Shift(n, k), Pow10(j - 1), 10);
    }
  }

  /** Moving the point right and back loses nothing. */
  lemma {:induction false} ShiftBack(n: nat, k: nat)
    ensures Shift(Shift(n, k), 0 - k) == n
  {
    if k > 0 {
      ShiftBackOne(Shift(n, k - 1), k);
      ShiftBack(n, k - 1);
    }
  }

  lemma {:induction false} ShiftBackOne(m: nat, k: nat)
    requires k > 0
    ensures Shift(10 * m, 0 - k) == Shift(m, 1 - k)
  {
    if k > 1 {
      ShiftBackOne(m, k - 1);
    }
  }
}
