/**
 * Strings as the job sees them: Python compares `str` values code point by
 * code point, and `strftime` writes numbers as zero-padded decimal digits.
 */
module Text {

  /** Python's `a < b` on strings: the first differing code point decides,
      and a proper prefix sorts first. */
  predicate LexLess(a: string, b: string)
    ensures LexLess(a, b) ==> a != b
    ensures |a| < |b| && a == b[..|a|] ==> LexLess(a, b)
    decreases |a|
  {
    if |a| == 0 then |b| > 0
    else if |b| == 0 then false
    else a[0] < b[0] || (a[0] == b[0] && LexLess(a[1..], b[1..]))
  }

  lemma {:induction false} LexLessIrreflexive(a: string)
    ensures !LexLess(a, a)
    decreases |a|
  {
    if |a| > 0 {
      LexLessIrreflexive(a[1..]);
    }
  }

  lemma {:induction false} LexLessTransitive(a: string, b: string, c: string)
    requires LexLess(a, b) && LexLess(b, c)
    ensures LexLess(a, c)
    decreases |a|
  {
    if |a| > 0 && |b| > 0 && |c| > 0 && a[0] == b[0] == c[0] {
      LexLessTransitive(a[1..], b[1..], c[1..]);
    }
  }

  lemma {:induction false} LexLessTotal(a: string, b: string)
    requires a != b
    ensures LexLess(a, b) || LexLess(b, a)
    decreases |a|
  {
    if |a| > 0 && |b| > 0 && a[0] == b[0] {
      assert a == [a[0]] + a[1..] && b == [b[0]] + b[1..];
      LexLessTotal(a[1..], b[1..]);
    }
  }

  /** "Not less than" is transitive: the relation a descending sort keeps
      between neighbours. */
  lemma NotLessTransitive(a: string, b: string, c: string)
    requires !LexLess(a, b) && !LexLess(b, c)
    ensures !LexLess(a, c)
  {
    if LexLess(a, c) {
      if a == b {
      } else {
        LexLessTotal(a, b);
        if b == c {
        } else {
          LexLessTotal(b, c);
          LexLessTransitive(c, b, a);
          LexLessTransitive(a, c, a);
          LexLessIrreflexive(a);
        }
      }
    }
  }

  /** Comparing two strings that start with blocks of equal width: the first
      blocks decide unless they are equal. */
  lemma {:induction false} LexLessConcat(a: string, b: string, c: string, d: string)
    requires |a| == |c|
    ensures LexLess(a + b, c + d) <==> LexLess(a, c) || (a == c && LexLess(b, d))
    decreases |a|
  {
    if |a| == 0 {
      assert a + b == b && c + d == d;
    } else {
      assert (a + b)[0] == a[0] && (c + d)[0] == c[0];
      assert (a + b)[1..] == a[1..] + b && (c + d)[1..] == c[1..] + d;
      LexLessConcat(a[1..], b, c[1..], d);
      if a[0] == c[0] {
        assert a == c <==> a[1..] == c[1..] by {
          assert a == [a[0]] + a[1..] && c == [c[0]] + c[1..];
        }
      }
    }
  }

  predicate IsDigit(c: char) {
    '0' <= c <= '9'
  }

  predicate AllDigits(s: string) {
    forall i :: 0 <= i < |s| ==> IsDigit(s[i])
  }

  function DigitChar(v: nat): (c: char)
    requires v < 10
    ensures IsDigit(c)
  {
    (48 + v) as char
  }

  function DigitValue(c: char): (v: nat)
    requires IsDigit(c)
    ensures v < 10 && DigitChar(v) == c
  {
    c as int - 48
  }

  function Pow10(n: nat): (p: nat)
    ensures p >= 1
  {
    if n == 0 then 1 else 10 * Pow10(n - 1)
  }

  /** The last `width` decimal digits of `n`, zero-padded on the left, as
      `%0<width>d` writes them. */
  function Digits(width: nat, n: nat): (s: string)
    ensures |s| == width && AllDigits(s)
  {
    if width == 0 then [] else Digits(width - 1, n / 10) + [DigitChar(n % 10)]
  }

  /** The number a string of decimal digits denotes. */
  function Value(s: string): nat
    requires AllDigits(s)
  {
    if s == [] then 0 else 10 * Value(s[..|s| - 1]) + DigitValue(s[|s| - 1])
  }

  lemma {:induction false} ValueOfDigits(width: nat, n: nat)
    requires n < Pow10(width)
    ensures Value(Digits(width, n)) == n
  {
    if width > 0 {
      var s := Digits(width, n);
      assert s[..width - 1] == Digits(width - 1, n / 10);
      ValueOfDigits(width - 1, n / 10);
    }
  }

  lemma {:induction false} DigitsOfValue(s: string)
    requires AllDigits(s)
    ensures Value(s) < Pow10(|s|)
    ensures Digits(|s|, Value(s)) == s
  {
    if s != [] {
      var init := s[..|s| - 1];
      DigitsOfValue(init);
      var v := Value(s);
      assert v / 10 == Value(init) && v % 10 == DigitValue(s[|s| - 1]);
      assert s == init + [s[|s| - 1]];
    }
  }

  lemma DigitsInjective(width: nat, x: nat, y: nat)
    requires x < Pow10(width) && y < Pow10(width)
    requires Digits(width, x) == Digits(width, y)
    ensures x == y
  {
    ValueOfDigits(width, x);
    ValueOfDigits(width, y);
  }

  /** Zero padding makes string order agree with numeric order. */
  lemma {:induction false} DigitsOrder(width: nat, x: nat, y: nat)
    requires x < Pow10(width) && y < Pow10(width)
    ensures LexLess(Digits(width, x), Digits(width, y)) <==> x < y
  {
    if width == 0 {
      assert LexLess([], []) == false;
    } else {
      var hx, hy := Digits(width - 1, x / 10), Digits(width - 1, y / 10);
      var cx, cy := DigitChar(x % 10), DigitChar(y % 10);
      LexLessConcat(hx, [cx], hy, [cy]);
      DigitsOrder(width - 1, x / 10, y / 10);
      assert hx == hy <==> x / 10 == y / 10 by {
        if hx == hy {
          DigitsInjective(width - 1, x / 10, y / 10);
        }
      }
      assert LexLess([cx], [cy]) <==> x % 10 < y % 10 by {
        assert [cx][1..] == [] && [cy][1..] == [];
      }
    }
  }
}
