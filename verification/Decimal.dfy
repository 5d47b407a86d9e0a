/** Decimal numerals as strings, and how their byte order relates to the order of the numbers. */
module Decimal {

  function Digit(d: nat): char
    requires d < 10
  {
    '0' + d as char
  }

  function Dec(n: nat): (s: string)
    ensures |s| >= 1 && forall i :: 0 <= i < |s| ==> '0' <= s[i] <= '9'
  {
    if n < 10 then [Digit(n)] else Dec(n / 10) + [Digit(n % 10)]
  }

  /** The number a string of digits stands for. */
  function Val(s: string): nat
    requires forall i :: 0 <= i < |s| ==> '0' <= s[i] <= '9'
  {
    if s == [] then 0 else 10 * Val(s[..|s| - 1]) + (s[|s| - 1] - '0') as nat
  }

  lemma {:induction false} ValOfDec(n: nat)
    ensures Val(Dec(n)) == n
  {
    if n >= 10 {
      ValOfDec(n / 10);
      assert Dec(n)[..|Dec(n)| - 1] == Dec(n / 10);
    } else {
      assert Dec(n)[..0] == [];
    }
  }

  function Pow10(k: nat): (p: nat)
    ensures p >= 1
  {
    if k == 0 then 1 else 10 * Pow10(k - 1)
  }

  /** Byte-wise order on strings, as Go compares them. */
  predicate LexLess(a: string, b: string) {
    if b == [] then false
    else if a == [] then true
    else a[0] < b[0] || (a[0] == b[0] && LexLess(a[1..], b[1..]))
  }

  lemma {:induction false} LexOfPrefix(a: string, b: string, x: string, y: string)
    requires |a| == |b|
    ensures LexLess(a + x, b + y) <==> LexLess(a, b) || (a == b && LexLess(x, y))
  {
    if a == [] {
      assert a + x == x && b + y == y;
    } else {
      LexOfPrefix(a[1..], b[1..], x, y);
      assert (a + x)[1..] == a[1..] + x && (b + y)[1..] == b[1..] + y;
      assert a == [a[0]] + a[1..] && b == [b[0]] + b[1..];
    }
  }

  lemma {:induction false} LexTotal(a: string, b: string)
    ensures !(LexLess(a, b) && LexLess(b, a))
    ensures a != b ==> LexLess(a, b) || LexLess(b, a)
    ensures !LexLess(a, a)
  {
    if a != [] && b != [] {
      LexTotal(a[1..], b[1..]);
      assert a == [a[0]] + a[1..] && b == [b[0]] + b[1..];
    }
    if a != [] {
      LexTotal(a[1..], a[1..]);
    }
  }

  lemma {:induction false} LexTransitive(a: string, b: string, c: string)
    requires LexLess(a, b) && LexLess(b, c)
    ensures LexLess(a, c)
  {
    if a != [] && a[0] == b[0] && b[0] == c[0] {
      LexTransitive(a[1..], b[1..], c[1..]);
    }
  }

  /** Numerals with equally many digits compare as their numbers do. */
  lemma {:induction false} LexOfEqualDigits(a: nat, b: nat)
    requires |Dec(a)| == |Dec(b)|
    ensures LexLess(Dec(a), Dec(b)) <==> a < b
    ensures Dec(a) == Dec(b) <==> a == b
  {
    if a < 10 {
      assert Dec(a)[1..] == [] && Dec(b)[1..] == [];
    } else {
      LexOfEqualDigits(a / 10, b / 10);
      LexOfPrefix(Dec(a / 10), Dec(b / 10), [Digit(a % 10)], [Digit(b % 10)]);
      assert [Digit(a % 10)][1..] == [] && [Digit(b % 10)][1..] == [];
      LexDigit(a % 10, b % 10);
      assert Dec(a)[..|Dec(a)| - 1] == Dec(a / 10) && Dec(b)[..|Dec(b)| - 1] == Dec(b / 10);
    }
  }

  lemma LexDigit(a: nat, b: nat)
    requires a < 10 && b < 10
    ensures LexLess([Digit(a)], [Digit(b)]) <==> a < b
  {
    assert [Digit(a)][1..] == [] && [Digit(b)][1..] == [];
  }

  lemma {:induction false} MoreDigitsIsMore(a: nat, b: nat)
    requires a <= b
    ensures |Dec(a)| <= |Dec(b)|
  {
    if b >= 10 && a >= 10 {
      MoreDigitsIsMore(a / 10, b / 10);
    }
  }

  /** `b` without its last `k` digits. */
  function Top(b: nat, k: nat): nat {
    if k == 0 then b else Top(b / 10, k - 1)
  }

  lemma {:induction false} LeadingDigits(b: nat, k: nat)
    requires k < |Dec(b)|
    ensures Dec(Top(b, k)) == Dec(b)[..|Dec(b)| - k]
  {
    var d := |Dec(b)|;
    if k == 0 {
      assert Dec(b)[..d] == Dec(b);
    } else {
      LeadingDigits(b / 10, k - 1);
      assert Dec(b)[..d - 1] == Dec(b / 10);
      assert Dec(b)[..d - k] == Dec(b)[..d - 1][..d - k];
    }
  }

  lemma {:induction false} ScaledAtMost(a: nat, b: nat, k: nat)
    ensures a * Pow10(k) <= b <==> a <= Top(b, k)
  {
    if k > 0 {
      var m := a * Pow10(k - 1);
      assert a * Pow10(k) == 10 * m;
      ScaledAtMost(a, b / 10, k - 1);
    }
  }

  /** `a` scaled to as many digits as `b` does not exceed it. */
  predicate Aligned(a: nat, b: nat)
    requires a <= b
  {
    MoreDigitsIsMore(a, b);
    a * Pow10(|Dec(b)| - |Dec(a)|) <= b
  }

  lemma EqualDigitsAligned(a: nat, b: nat)
    requires a <= b && |Dec(a)| == |Dec(b)|
    ensures Aligned(a, b)
  {
  }

  /** The byte order of two numerals of rising numbers, followed by anything that starts below
      every digit: the smaller number comes first exactly when it is aligned with the larger. */
  lemma LexOfRising(a: nat, b: nat, x: string, y: string)
    requires a < b
    requires x == [] || x[0] < '0'
    ensures LexLess(Dec(a) + x, Dec(b) + y) <==> Aligned(a, b)
  {
    hide Dec, LexLess;
    MoreDigitsIsMore(a, b);
    var da, k := |Dec(a)|, |Dec(b)| - |Dec(a)|;
    LeadingDigits(b, k);
    var head, rest := Dec(b)[..da], Dec(b)[da..] + y;
    assert Dec(b) + y == head + rest;
    LexOfPrefix(Dec(a), head, x, rest);
    LexOfEqualDigits(a, Top(b, k));
    ScaledAtMost(a, b, k);
    if k > 0 {
      assert rest[0] == Dec(b)[da];
      LexOfLowStart(x, rest);
    }
  }

  lemma LexOfLowStart(x: string, y: string)
    requires y != [] && '0' <= y[0] && (x == [] || x[0] < '0')
    ensures LexLess(x, y)
  {
  }
}
