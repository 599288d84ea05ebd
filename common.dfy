/** Small shared vocabulary: optional values, error-carrying results and
    the decimal rendering of integers that Python's str() and JavaScript's
    toString() perform when a number is spliced into a name or a message. */
module Common {

  datatype Option<T> = None | Some(value: T)

  /** The outcome of an operation that raises on failure: the value, or
      the text of the exception. */
  datatype Result<T> = Ok(value: T) | Err(error: string)

  /** The outcome of an operation that only succeeds or fails. */
  datatype Outcome = Pass | Fail(error: string)

  predicate IsDigit(c: char) {
    '0' <= c <= '9'
  }

  predicate AllDigits(s: string) {
    forall i :: 0 <= i < |s| ==> IsDigit(s[i])
  }

  function DigitChar(d: nat): (c: char)
    requires d < 10
    ensures IsDigit(c) && DigitValue(c) == d
  {
    (('0' as int) + d) as char
  }

  function DigitValue(c: char): nat
    requires IsDigit(c)
  {
    (c as int) - ('0' as int)
  }

  /** Decimal digits of `n`, most significant first, with no leading zero. */
  function NatToString(n: nat): (s: string)
    ensures 1 <= |s| && AllDigits(s)
    ensures |s| == 1 <==> n < 10
    decreases n
  {
    if n < 10 then [DigitChar(n)] else NatToString(n / 10) + [DigitChar(n % 10)]
  }

  /** Decimal rendering of an integer, with a leading '-' when negative. */
  function IntToString(i: int): (s: string)
    ensures 1 <= |s|
    ensures i >= 0 ==> s == NatToString(i)
    ensures i < 0 ==> s == "-" + NatToString(-i)
  {
    if i < 0 then "-" + NatToString(-i) else NatToString(i)
  }

  /** The value of a string of decimal digits (leading zeros allowed). */
  function ParseNat(s: string): nat
    requires AllDigits(s)
  {
    if s == [] then 0 else ParseNat(s[..|s| - 1]) * 10 + DigitValue(s[|s| - 1])
  }

  /** The value of a decimal rendering with an optional leading '-'. */
  function ParseInt(s: string): int
  {
    if |s| > 0 && s[0] == '-' && AllDigits(s[1..]) then 0 - ParseNat(s[1..]) as int
    else if AllDigits(s) then ParseNat(s)
    else 0
  }

  lemma {:induction false} ParseNatToString(n: nat)
    ensures ParseNat(NatToString(n)) == n
  {
    if n >= 10 {
      var s := NatToString(n);
      assert s[..|s| - 1] == NatToString(n / 10);
      ParseNatToString(n / 10);
    }
  }

  lemma ParseIntToString(i: int)
    ensures ParseInt(IntToString(i)) == i
  {
    var s := IntToString(i);
    if i < 0 {
      assert s[1..] == NatToString(-i);
      ParseNatToString(-i);
    } else {
      assert s == NatToString(i);
      assert s[0] != '-' by { assert IsDigit(s[0]); }
      ParseNatToString(i);
    }
  }

  /** Distinct numbers are printed differently. */
  lemma NatToStringInjective(a: nat, b: nat)
    requires NatToString(a) == NatToString(b)
    ensures a == b
  {
    ParseNatToString(a);
    ParseNatToString(b);
  }

  lemma IntToStringInjective(i: int, j: int)
    requires IntToString(i) == IntToString(j)
    ensures i == j
  {
    ParseIntToString(i);
    ParseIntToString(j);
  }

  /** A character that is not a digit never occurs in a rendered number. */
  lemma NotInNatToString(n: nat, c: char)
    requires !IsDigit(c)
    ensures c !in NatToString(n)
  {
    var s := NatToString(n);
    assert forall k :: 0 <= k < |s| ==> IsDigit(s[k]);
  }

  /** Nor does one that is neither a digit nor the minus sign occur in a rendered integer. */
  lemma NotInIntToString(i: int, c: char)
    requires !IsDigit(c) && c != '-'
    ensures c !in IntToString(i)
  {
    var s := IntToString(i);
    if i < 0 {
      NotInNatToString(-i, c);
      assert forall k :: 1 <= k < |s| ==> s[k] == NatToString(-i)[k - 1];
    } else {
      NotInNatToString(i, c);
    }
  }

  lemma ConcatAssoc(a: string, b: string, c: string)
    ensures a + b + c == a + (b + c)
  {
  }

  lemma DropCommonPrefix(p: string, x: string, y: string)
    requires p + x == p + y
    ensures x == y
  {
    assert x == (p + x)[|p|..];
    assert y == (p + y)[|p|..];
  }

  lemma DropCommonSuffix(x: string, y: string, q: string)
    requires x + q == y + q
    ensures x == y
  {
    assert |x| == |y|;
    assert x == (x + q)[..|x|];
    assert y == (y + q)[..|y|];
  }

  /** If `a + [sep] + b == c + [sep] + d` and neither `a` nor `c` contains
      `sep`, the two splits agree. */
  lemma {:induction false} SplitAtFirst(a: string, b: string, c: string, d: string, sep: char)
    requires sep !in a && sep !in c
    requires a + [sep] + b == c + [sep] + d
    ensures a == c && b == d
  {
    var s := a + [sep] + b;
    assert s[|a|] == sep && s[|c|] == sep;
    assert forall i :: 0 <= i < |a| ==> s[i] == a[i] != sep;
    assert forall i :: 0 <= i < |c| ==> s[i] == c[i] != sep;
    assert |a| == |c|;
    assert a == s[..|a|] == c;
    assert b == s[|a| + 1..] == d;
  }

  /** The same split when the separator is kept at the head of the rest. */
  lemma {:induction false} SplitBefore(a: string, b: string, c: string, d: string, sep: char)
    requires sep !in a && sep !in c
    requires |b| > 0 && b[0] == sep && |d| > 0 && d[0] == sep
    requires a + b == c + d
    ensures a == c && b == d
  {
    var s := a + b;
    assert s[|a|] == sep && s[|c|] == sep;
    assert forall i :: 0 <= i < |a| ==> s[i] == a[i] != sep;
    assert forall i :: 0 <= i < |c| ==> s[i] == c[i] != sep;
    assert |a| == |c|;
    assert a == s[..|a|] == c;
    assert b == s[|a|..] == d;
  }

  // ---------------------------------------------------------------------
  // Arithmetic facts the solver does not find on its own
  // ---------------------------------------------------------------------

  lemma LemmaMulNonneg(x: nat, y: nat)
    ensures x * y >= 0
  {
  }

  lemma LemmaMulBound(x: int, y: nat)
    ensures x >= 1 ==> x * y >= y
    ensures x <= -1 ==> x * y + y <= 0
  {
    assert x * y == (x - 1) * y + y;
    assert x * y == (x + 1) * y - y;
    if x >= 1 { LemmaMulNonneg(x - 1, y); }
    if x <= -1 { LemmaMulNonneg(-x - 1, y); assert (-x - 1) * y == -((x + 1) * y); }
  }

  /** The quotient is the one multiple that brackets the dividend. */
  lemma LemmaDivUnique(x: int, b: int, q: int)
    requires b > 0 && q * b <= x < q * b + b
    ensures x / b == q
  {
    var k := x / b;
    assert k * b + x % b == x;
    LemmaMulBound(q - k, b);
    assert (q - k) * b == q * b - k * b;
  }

  lemma LemmaMulDivCancel(a: int, b: int)
    requires b > 0
    ensures a * b / b == a
  {
    LemmaDivUnique(a * b, b, a);
  }

  lemma LemmaDivMonotone(a: int, b: int, d: int)
    requires a <= b && d > 0
    ensures a / d <= b / d
  {
    var qa, qb := a / d, b / d;
    assert qa * d + a % d == a;
    assert qb * d + b % d == b;
    LemmaMulBound(qa - qb, d);
    assert (qa - qb) * d == qa * d - qb * d;
  }

  lemma LemmaMulMonotone(x: nat, y: int, z: int)
    requires y <= z
    ensures x * y <= x * z
  {
    assert x * z - x * y == x * (z - y);
    LemmaMulNonneg(x, z - y);
  }
}
