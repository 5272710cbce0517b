/** Shared vocabulary: optional values, HTTP-style replies, the rounding
    that JavaScript's Math.round performs on an exact quotient, and decimal
    rendering of integers as template literals produce it. */
module Common {

  datatype Option<+T> = None | Some(value: T)

  /** What a route handler sends back: a JSON body, or one of the error
      statuses the routes use (404, 400; 500 for exceptions). */
  datatype Reply<+T> = Ok(body: T) | NotFound | BadRequest | ServerError

  /** Math.round(num / den) for den > 0, computed exactly: the nearest
      integer, with ties going up (towards +infinity, as Math.round does
      for negative halves too). */
  function RoundHalfUp(num: int, den: int): (r: int)
    requires den > 0
    ensures 2 * den * r - den <= 2 * num < 2 * den * r + den
  {
    var q := (2 * num + den) / (2 * den);
    var m := (2 * num + den) % (2 * den);
    assert 2 * num + den == 2 * den * q + m && 0 <= m < 2 * den;
    q
  }

  /** Scaling by a non-negative factor keeps order. */
  lemma MulLe(k: int, x: int, y: int)
    requires k >= 0 && x <= y
    ensures k * x <= k * y
  {
    assert k * y - k * x == k * (y - x);
  }

  /** The rounding of RoundHalfUp is the unique integer within half a unit. */
  lemma RoundHalfUpUnique(num: int, den: int, r: int)
    requires den > 0
    requires 2 * den * r - den <= 2 * num < 2 * den * r + den
    ensures r == RoundHalfUp(num, den)
  {
    var q := RoundHalfUp(num, den);
    if r < q {
      MulLe(2 * den, r + 1, q);
    } else if r > q {
      MulLe(2 * den, q + 1, r);
    }
  }

  /** Rounding is monotone in the numerator. */
  lemma RoundHalfUpMonotone(a: int, b: int, den: int)
    requires den > 0 && a <= b
    ensures RoundHalfUp(a, den) <= RoundHalfUp(b, den)
  {
    var ra, rb := RoundHalfUp(a, den), RoundHalfUp(b, den);
    if ra > rb {
      MulLe(2 * den, rb + 1, ra);
    }
  }

  /** Rounding k*den / den gives back k. */
  lemma RoundHalfUpExact(k: int, den: int)
    requires den > 0
    ensures RoundHalfUp(k * den, den) == k
  {
    RoundHalfUpUnique(k * den, den, k);
  }

  predicate IsDigit(c: char) {
    '0' <= c <= '9'
  }

  predicate AllDigits(s: string) {
    forall i :: 0 <= i < |s| ==> IsDigit(s[i])
  }

  function DigitChar(d: nat): (c: char)
    requires d < 10
    ensures IsDigit(c) && c as int - '0' as int == d
  {
    ('0' as int + d) as char
  }

  /** Decimal rendering of a natural number, no leading zeros
      (what `${n}` gives for a non-negative integer). */
  function NatToString(n: nat): (s: string)
    ensures |s| > 0 && AllDigits(s)
    ensures |s| > 1 ==> s[0] != '0'
    decreases n
  {
    if n < 10 then [DigitChar(n)] else NatToString(n / 10) + [DigitChar(n % 10)]
  }

  /** Decimal rendering of an integer, with a leading minus sign when negative. */
  function IntToString(i: int): (s: string)
    ensures |s| > 0
    ensures i >= 0 ==> s == NatToString(i)
    ensures i < 0 ==> s[0] == '-' && s[1..] == NatToString(-i)
  {
    if i < 0 then "-" + NatToString(-i) else NatToString(i)
  }

  /** Reads a string of decimal digits back as a number. */
  function ParseNat(s: string): nat
    requires AllDigits(s)
  {
    if |s| == 0 then 0 else 10 * ParseNat(s[..|s| - 1]) + (s[|s| - 1] as int - '0' as int)
  }

  /** Rendering and parsing are inverse. */
  lemma {:induction false} ParseNatToString(n: nat)
    ensures ParseNat(NatToString(n)) == n
    decreases n
  {
    if n >= 10 {
      var s := NatToString(n);
      assert s[..|s| - 1] == NatToString(n / 10);
      ParseNatToString(n / 10);
    }
  }

  /** Different numbers render differently. */
  lemma NatToStringInjective(a: nat, b: nat)
    requires NatToString(a) == NatToString(b)
    ensures a == b
  {
    ParseNatToString(a);
    ParseNatToString(b);
  }

  /** A string of digits followed by a non-digit separator can be split at
      that separator in only one way. */
  lemma {:induction false} SplitAtSeparator(a: string, c: char, b: string, a': string, b': string)
    requires AllDigits(a) && AllDigits(a') && !IsDigit(c)
    requires a + [c] + b == a' + [c] + b'
    ensures a == a' && b == b'
  {
    var s := a + [c] + b;
    var s' := a' + [c] + b';
    assert !IsDigit(s[|a|]) && !IsDigit(s'[|a'|]);
    assert forall i :: 0 <= i < |a| ==> IsDigit(s[i]);
    assert forall i :: 0 <= i < |a'| ==> IsDigit(s'[i]);
    assert a == s[..|a|] == a';
    assert b == s[|a| + 1..] == b';
  }
}
