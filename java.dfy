/**
 * The few pieces of Java's own semantics the cache facade relies on, written
 * out: 32-bit int arithmetic of AtomicInteger, the truncating `%` operator,
 * String.contains and String.trim.
 */
module JavaSemantics {

  const IntMin: int := -0x8000_0000
  const IntMax: int := 0x7fff_ffff

  /** A value of Java's 32-bit `int`. */
  predicate IsInt(x: int) {
    IntMin <= x <= IntMax
  }

  /** A value of Java's 64-bit `long`. */
  predicate IsLong(x: int) {
    -0x8000_0000_0000_0000 <= x <= 0x7fff_ffff_ffff_ffff
  }

  /**
   * AtomicInteger.incrementAndGet: the successor in two's complement, so
   * Integer.MAX_VALUE wraps to Integer.MIN_VALUE.
   */
  function IncrementInt(x: int): (r: int)
    requires IsInt(x)
    ensures IsInt(r)
    ensures (r - (x + 1)) % 0x1_0000_0000 == 0
    ensures x < IntMax ==> r == x + 1
  {
    if x == IntMax then IntMin else x + 1
  }

  function Abs(x: int): nat {
    if x < 0 then -x else x
  }

  /**
   * Java's `a % b` on ints: the remainder of truncating division, so it takes
   * the sign of the dividend. It is zero exactly when `b` divides `a`.
   */
  function JavaRem(a: int, b: int): (r: int)
    requires b != 0
    ensures Abs(r) < Abs(b)
    ensures r != 0 ==> (r < 0 <==> a < 0)
    ensures r == 0 <==> a % b == 0
    ensures (a - r) % b == 0
  {
    DivisibleByAbs(a, b);
    RemCongruent(a, b);
    var m := Abs(a) % Abs(b);
    if a < 0 then -m else m
  }

  /** The truncating remainder differs from the dividend by a multiple of the divisor. */
  lemma RemCongruent(a: int, b: int)
    requires b != 0
    ensures var m := Abs(a) % Abs(b);
      (a - (if a < 0 then -m else m)) % b == 0
  {
    var m := Abs(a) % Abs(b);
    var q := Abs(a) / Abs(b);
    assert Abs(a) == Abs(b) * q + m;
    var r := if a < 0 then -m else m;
    var k := if (a < 0) == (b < 0) then q else -q;
    if a < 0 {
      assert a - r == -(Abs(a) - m);
    } else {
      assert a - r == Abs(a) - m;
    }
    if b < 0 {
      assert Abs(b) == -b;
    }
    assert a - r == b * k;
    MultipleHasZeroRem(a - r, b, k);
  }

  /** Divisibility does not depend on the signs of the operands. */
  lemma DivisibleByAbs(a: int, b: int)
    requires b != 0
    ensures a % b == 0 <==> Abs(a) % Abs(b) == 0
  {
    if a % b == 0 {
      DivisibleThenAbsDivisible(a, b);
    }
    if Abs(a) % Abs(b) == 0 {
      AbsDivisibleThenDivisible(a, b);
    }
  }

  lemma DivisibleThenAbsDivisible(a: int, b: int)
    requires b != 0 && a % b == 0
    ensures Abs(a) % Abs(b) == 0
  {
    var q := a / b;
    assert a == b * q;
    AbsOfProduct(b, q);
    MultipleHasZeroRem(Abs(a), Abs(b), Abs(q));
  }

  lemma AbsDivisibleThenDivisible(a: int, b: int)
    requires b != 0 && Abs(a) % Abs(b) == 0
    ensures a % b == 0
  {
    var q := Abs(a) / Abs(b);
    assert Abs(a) == Abs(b) * q;
    var k := if (a < 0) == (b < 0) then q else -q;
    if (a < 0) == (b < 0) {
      if a < 0 {
        assert a + Abs(a) == 0 && b + Abs(b) == 0;
        assert a == b * k;
      } else {
        assert a == b * k;
      }
    } else {
      if a < 0 {
        assert a + Abs(a) == 0 && b == Abs(b);
        assert a == b * k;
      } else {
        assert a == Abs(a) && b + Abs(b) == 0;
        assert a == b * k;
      }
    }
    MultipleHasZeroRem(a, b, k);
  }

  lemma AbsOfProduct(x: int, y: int)
    ensures Abs(x * y) == Abs(x) * Abs(y)
  {
    if x < 0 && y < 0 {
      assert x * y == (-x) * (-y);
    } else if x < 0 {
      assert -(x * y) == (-x) * y;
    } else if y < 0 {
      assert -(x * y) == x * (-y);
    }
  }

  lemma ProductAtLeast(x: nat, y: nat)
    ensures y >= 1 ==> x * y >= x
  {
    assert x * y == x * (y - 1) + x;
  }

  lemma MultipleHasZeroRem(a: int, b: int, k: int)
    requires b != 0 && a == b * k
    ensures a % b == 0
  {
    var q, r := a / b, a % b;
    assert b * (k - q) == r;
    AbsOfProduct(b, k - q);
    ProductAtLeast(Abs(b), Abs(k - q));
  }

  /** `t` occurs in `s` starting at index `i`. */
  predicate OccursAt(s: string, t: string, i: int) {
    0 <= i && i + |t| <= |s| && s[i..i + |t|] == t
  }

  predicate StartsWith(s: string, p: string) {
    |p| <= |s| && s[..|p|] == p
  }

  /** String.contains: whether `t` is a substring of `s` (the empty string always is). */
  function Contains(s: string, t: string): (b: bool)
    ensures b ==> |t| <= |s|
    decreases |s|
  {
    if StartsWith(s, t) then true
    else if |s| == 0 then false
    else Contains(s[1..], t)
  }

  lemma {:induction false} ContainsIsSubstring(s: string, t: string)
    ensures Contains(s, t) <==> exists i :: OccursAt(s, t, i)
    decreases |s|
  {
    if StartsWith(s, t) {
      assert OccursAt(s, t, 0);
    } else if |s| > 0 {
      ContainsIsSubstring(s[1..], t);
      OccursInTail(s, t);
      if Contains(s[1..], t) {
        var i :| OccursAt(s[1..], t, i);
        assert OccursAt(s, t, i + 1);
      }
    }
  }

  /** A string that lacks the first character of `t` does not contain `t`. */
  lemma {:induction false} AbsentFirstChar(s: string, t: string)
    requires |t| > 0 && t[0] !in s
    ensures !Contains(s, t)
    decreases |s|
  {
    if |s| > 0 {
      if |t| <= |s| {
        assert s[..|t|][0] == s[0];
      }
      assert forall c :: c in s[1..] ==> c in s;
      AbsentFirstChar(s[1..], t);
    }
  }

  /** An occurrence in a non-empty `s` is a prefix or an occurrence in its tail. */
  lemma OccursInTail(s: string, t: string)
    requires |s| > 0
    ensures forall i :: OccursAt(s, t, i) <==>
      (i == 0 && StartsWith(s, t)) || (i >= 1 && OccursAt(s[1..], t, i - 1))
  {
    forall i
      ensures OccursAt(s, t, i) <==>
        (i == 0 && StartsWith(s, t)) || (i >= 1 && OccursAt(s[1..], t, i - 1))
    {
      if i >= 1 && i + |t| <= |s| {
        assert s[1..][i - 1..i - 1 + |t|] == s[i..i + |t|];
      }
    }
  }

  /** The characters String.trim removes: every char at or below U+0020. */
  predicate IsTrimmed(c: char) {
    c <= ' '
  }

  /** The number of trimmable characters at the start of `s`. */
  function LeadingTrimmed(s: string): (n: nat)
    ensures n <= |s|
    ensures forall k :: 0 <= k < n ==> IsTrimmed(s[k])
    ensures n < |s| ==> !IsTrimmed(s[n])
  {
    if |s| == 0 || !IsTrimmed(s[0]) then 0 else 1 + LeadingTrimmed(s[1..])
  }

  /** The length of `s` once its trailing trimmable characters are dropped. */
  function TrailingStart(s: string): (n: nat)
    ensures n <= |s|
    ensures forall k :: n <= k < |s| ==> IsTrimmed(s[k])
    ensures 0 < n ==> !IsTrimmed(s[n - 1])
  {
    if |s| == 0 || !IsTrimmed(s[|s| - 1]) then |s| else TrailingStart(s[..|s| - 1])
  }

  /** `r` is `s` at index `i` with only trimmable characters around it. */
  predicate TrimmedFrom(s: string, r: string, i: int) {
    && OccursAt(s, r, i)
    && (forall k :: 0 <= k < i ==> IsTrimmed(s[k]))
    && (forall k :: i + |r| <= k < |s| ==> IsTrimmed(s[k]))
  }

  /** String.trim: `s` without its leading and trailing trimmable characters. */
  function Trim(s: string): (r: string)
    ensures exists i :: TrimmedFrom(s, r, i)
    ensures |r| > 0 ==> !IsTrimmed(r[0]) && !IsTrimmed(r[|r| - 1])
  {
    var lo, hi := LeadingTrimmed(s), TrailingStart(s);
    if hi <= lo then
      assert TrimmedFrom(s, [], 0);
      []
    else
      assert TrimmedFrom(s, s[lo..hi], lo);
      s[lo..hi]
  }
}
