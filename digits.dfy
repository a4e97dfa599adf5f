/** Decimal rendering of natural numbers, as JavaScript writes it with
    `String(n).padStart(w, "0")`, together with its fixed-width reading, its
    inverse, and the lexicographic string order that `Array.prototype.sort`
    uses by default. */
module Digits {

  predicate IsDigit(c: char) {
    '0' <= c <= '9'
  }

  predicate AllDigits(s: string) {
    forall i :: 0 <= i < |s| ==> IsDigit(s[i])
  }

  function DigitChar(d: nat): (c: char)
    requires d < 10
    ensures IsDigit(c)
  {
    ('0' as int + d) as char
  }

  function DigitValue(c: char): (d: nat)
    requires IsDigit(c)
    ensures d < 10 && DigitChar(d) == c
  {
    c as int - '0' as int
  }

  function Pow10(k: nat): (p: nat)
    ensures p >= 1
  {
    if k == 0 then 1 else 10 * Pow10(k - 1)
  }

  /** `String(n)` for a natural number: its shortest decimal form. */
  function Decimal(n: nat): (s: string)
    ensures |s| >= 1 && AllDigits(s)
    ensures n < 10 <==> |s| == 1
  {
    if n < 10 then [DigitChar(n)] else Decimal(n / 10) + [DigitChar(n % 10)]
  }

  /** `s.padStart(w, c)`: `s` preceded by copies of `c` up to length `w`. */
  function PadStart(s: string, w: nat, c: char): (r: string)
    ensures |r| == if |s| >= w then |s| else w
    ensures EndsWithAt(r, s)
    ensures forall i :: 0 <= i < |r| - |s| ==> r[i] == c
  {
    if |s| >= w then s else seq(w - |s|, _ => c) + s
  }

  /** `r` ends with `s` (written out so that the suffix's position is named). */
  predicate EndsWithAt(r: string, s: string) {
    |s| <= |r| && r[|r| - |s|..] == s
  }

  /** The `w`-digit decimal form of `n`, most significant digit first. */
  function Fixed(n: nat, w: nat): (s: string)
    requires n < Pow10(w)
    ensures |s| == w && AllDigits(s)
  {
    if w == 0 then [] else Fixed(n / 10, w - 1) + [DigitChar(n % 10)]
  }

  /** The number a string of digits denotes (leading zeros allowed). */
  function ValueOf(s: string): (n: nat)
    requires AllDigits(s)
    ensures n < Pow10(|s|)
  {
    if s == [] then 0 else ValueOf(s[..|s| - 1]) * 10 + DigitValue(s[|s| - 1])
  }

  /** Reading a fixed-width rendering gives the number back. */
  lemma {:induction false} ValueOfFixed(n: nat, w: nat)
    requires n < Pow10(w)
    ensures ValueOf(Fixed(n, w)) == n
  {
    if w > 0 {
      var s := Fixed(n, w);
      assert s[..w - 1] == Fixed(n / 10, w - 1);
      ValueOfFixed(n / 10, w - 1);
    }
  }

  /** Rendering what a digit string denotes, at its own width, gives the string back. */
  lemma {:induction false} FixedValueOf(s: string)
    requires AllDigits(s)
    ensures Fixed(ValueOf(s), |s|) == s
  {
    if s != [] {
      var init, last := s[..|s| - 1], s[|s| - 1];
      FixedValueOf(init);
      var v, d := ValueOf(init), DigitValue(last);
      assert ValueOf(s) == v * 10 + d;
      assert (v * 10 + d) / 10 == v && (v * 10 + d) % 10 == d;
      assert Fixed(ValueOf(s), |s|) == Fixed(v, |init|) + [DigitChar(d)];
      assert s == init + [last];
    }
  }

  /** Two renderings at the same width are equal exactly when the numbers are. */
  lemma FixedInjective(n: nat, m: nat, w: nat)
    requires n < Pow10(w) && m < Pow10(w)
    ensures Fixed(n, w) == Fixed(m, w) <==> n == m
  {
    if Fixed(n, w) == Fixed(m, w) {
      ValueOfFixed(n, w);
      ValueOfFixed(m, w);
    }
  }

  lemma {:induction false} FixedZero(w: nat)
    ensures Fixed(0, w) == seq(w, _ => '0')
  {
    if w > 0 {
      FixedZero(w - 1);
    }
  }

  lemma {:induction false} DecimalFits(n: nat, w: nat)
    requires 1 <= w && n < Pow10(w)
    ensures |Decimal(n)| <= w
  {
    if n >= 10 {
      DecimalFits(n / 10, w - 1);
    }
  }

  /** `String(n).padStart(w, "0")` is the `w`-digit rendering whenever `n` fits in
      `w >= 1` digits. */
  lemma {:induction false} PadStartDecimal(n: nat, w: nat)
    requires 1 <= w && n < Pow10(w)
    ensures PadStart(Decimal(n), w, '0') == Fixed(n, w)
  {
    DecimalFits(n, w);
    if n < 10 {
      FixedZero(w - 1);
      assert Fixed(n, w) == Fixed(0, w - 1) + [DigitChar(n)];
    } else {
      PadStartDecimal(n / 10, w - 1);
      var d := Decimal(n / 10);
      assert PadStart(Decimal(n), w, '0') == PadStart(d, w - 1, '0') + [DigitChar(n % 10)];
    }
  }

  /** The last `w` decimal digits of `n` are written in `r` from index
      `start` on, one character at a time (the least significant last). */
  predicate DigitsAt(r: string, start: nat, n: nat, w: nat)
    requires start + w <= |r|
  {
    w == 0 || (r[start + w - 1] == DigitChar(n % 10) && DigitsAt(r, start, n / 10, w - 1))
  }

  /** Digit by digit agreement is agreement with the fixed-width rendering. */
  lemma {:induction false} DigitsAtFixed(r: string, start: nat, n: nat, w: nat)
    requires start + w <= |r| && n < Pow10(w)
    requires DigitsAt(r, start, n, w)
    ensures r[start..start + w] == Fixed(n, w)
  {
    if w > 0 {
      DigitsAtFixed(r, start, n / 10, w - 1);
      assert r[start..start + w] == r[start..start + w - 1] + [r[start + w - 1]];
    }
  }

  /** `n` followed by `w` zero digits, that is `n * 10^w`. */
  function Shift(n: nat, w: nat): nat {
    if w == 0 then n else 10 * Shift(n, w - 1)
  }

  /** Writing two numbers side by side at fixed widths writes one number:
      the first shifted past the second's digits, plus the second. */
  lemma {:induction false} FixedConcat(n: nat, w1: nat, m: nat, w2: nat)
    requires n < Pow10(w1) && m < Pow10(w2)
    ensures Shift(n, w2) + m < Pow10(w1 + w2)
    ensures Fixed(n, w1) + Fixed(m, w2) == Fixed(Shift(n, w2) + m, w1 + w2)
  {
    if w2 > 0 {
      FixedConcat(n, w1, m / 10, w2 - 1);
      assert Pow10(w1 + w2) == 10 * Pow10(w1 + w2 - 1);
      var big := Shift(n, w2) + m;
      assert big / 10 == Shift(n, w2 - 1) + m / 10 && big % 10 == m % 10;
      assert Fixed(m, w2) == Fixed(m / 10, w2 - 1) + [DigitChar(m % 10)];
    }
  }

  /** JavaScript's default string comparison: lexicographic by character code,
      a proper prefix coming first. */
  predicate LexLess(a: string, b: string) {
    if a == [] then b != []
    else if b == [] then false
    else a[0] < b[0] || (a[0] == b[0] && LexLess(a[1..], b[1..]))
  }

  /** Comparing two concatenations whose first parts have equal length
      compares the first parts, and on a tie the second parts. */
  lemma {:induction false} LexLessConcat(a: string, c: string, b: string, d: string)
    requires |a| == |b|
    ensures LexLess(a + c, b + d) <==> LexLess(a, b) || (a == b && LexLess(c, d))
  {
    if a != [] {
      assert (a + c)[1..] == a[1..] + c;
      assert (b + d)[1..] == b[1..] + d;
      LexLessConcat(a[1..], c, b[1..], d);
      if a[0] == b[0] {
        assert a == b <==> a[1..] == b[1..] by {
          if a[1..] == b[1..] {
            assert a == [a[0]] + a[1..] && b == [b[0]] + b[1..];
          }
        }
      }
    } else {
      assert a + c == c && b + d == d;
    }
  }

  lemma LexLessDigit(x: nat, y: nat)
    requires x < 10 && y < 10
    ensures LexLess([DigitChar(x)], [DigitChar(y)]) <==> x < y
  {
  }

  /** On renderings of one width, string order is numeric order. */
  lemma {:induction false} LexLessFixed(n: nat, m: nat, w: nat)
    requires n < Pow10(w) && m < Pow10(w)
    ensures LexLess(Fixed(n, w), Fixed(m, w)) <==> n < m
  {
    if w > 0 {
      LexLessFixed(n / 10, m / 10, w - 1);
      FixedInjective(n / 10, m / 10, w - 1);
      LexLessConcat(Fixed(n / 10, w - 1), [DigitChar(n % 10)], Fixed(m / 10, w - 1), [DigitChar(m % 10)]);
      LexLessDigit(n % 10, m % 10);
    }
  }

  lemma LexLessIrreflexive(a: string)
    ensures !LexLess(a, a)
  {
  }
}
