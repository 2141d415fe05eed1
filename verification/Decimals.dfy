/** Base-ten digit strings: what BigInt(text) reads and what value.toString() writes. */
module Decimals {
  import Arithmetic

  predicate IsDigit(c: char) {
    '0' <= c <= '9'
  }

  predicate AllDigits(s: string) {
    forall i | 0 <= i < |s| :: IsDigit(s[i])
  }

  function DigitValue(c: char): nat
    requires IsDigit(c)
  {
    c as int - '0' as int
  }

  function Pow10(k: nat): (p: nat)
    ensures p >= 1
  {
    if k == 0 then 1 else 10 * Pow10(k - 1)
  }

  /** The number a digit string denotes; the empty string denotes zero. */
  function Value(s: string): nat
    requires AllDigits(s)
  {
    if s == "" then 0 else 10 * Value(s[..|s| - 1]) + DigitValue(s[|s| - 1])
  }

  function DigitChar(d: nat): (c: char)
    requires d < 10
    ensures IsDigit(c) && DigitValue(c) == d
  {
    ('0' as int + d) as char
  }

  function Print(n: nat): string {
    if n < 10 then [DigitChar(n)] else Print(n / 10) + [DigitChar(n % 10)]
  }

  /** The pattern ^(0|[1-9]\d*)$. */
  predicate Canonical(s: string) {
    && s != ""
    && AllDigits(s)
    && (s[0] == '0' ==> s == "0")
  }

  lemma {:induction false} Pow10Monotone(j: nat, k: nat)
    requires j <= k
    ensures Pow10(j) <= Pow10(k)
  {
    if j < k {
      Pow10Monotone(j, k - 1);
    }
  }

  /** Reading is place value: the leading digit weighs ten to the number of digits after it. */
  lemma {:induction false} ValueHead(s: string)
    requires s != "" && AllDigits(s)
    ensures Value(s) == DigitValue(s[0]) * Pow10(|s| - 1) + Value(s[1..])
  {
    if |s| == 1 {
      assert s[..0] == "" && s[1..] == "";
    } else {
      var front := s[..|s| - 1];
      ValueHead(front);
      assert s[1..][..|s[1..]| - 1] == front[1..];
      Arithmetic.Shift(DigitValue(s[0]), Pow10(|front| - 1), Value(front[1..]), DigitValue(s[|s| - 1]));
    }
  }

  lemma {:induction false} ValueBound(s: string)
    requires AllDigits(s)
    ensures Value(s) < Pow10(|s|)
  {
    if s != "" {
      ValueBound(s[..|s| - 1]);
    }
  }

  lemma {:induction false} PrintIsCanonical(n: nat)
    ensures Canonical(Print(n)) && Value(Print(n)) == n
    ensures n > 0 ==> Print(n)[0] != '0'
  {
    if n >= 10 {
      PrintIsCanonical(n / 10);
      assert Print(n)[..|Print(n)| - 1] == Print(n / 10);
    }
  }

  lemma {:induction false} CanonicalPositive(s: string)
    requires Canonical(s) && s != "0"
    ensures Value(s) >= Pow10(|s| - 1)
  {
    ValueHead(s);
    Arithmetic.MulMonotone(1, DigitValue(s[0]), Pow10(|s| - 1));
  }

  /** Canonical strings are exactly the printed numbers, so reading and printing undo each other. */
  lemma {:induction false} PrintValue(s: string)
    requires Canonical(s)
    ensures Print(Value(s)) == s
  {
    if |s| == 1 {
      assert s[..0] == "";
      assert Value(s) == DigitValue(s[0]);
      assert s == [s[0]];
    } else {
      var front := s[..|s| - 1];
      CanonicalPositive(front);
      PrintValue(front);
      assert s == front + [s[|s| - 1]];
    }
  }

  /** Byte-wise comparison of two strings, as SQLite's BINARY collation orders text. */
  predicate TextLess(a: string, b: string) {
    b != "" && (a == "" || a[0] < b[0] || (a[0] == b[0] && TextLess(a[1..], b[1..])))
  }

  /** A larger leading digit outweighs everything after it. */
  lemma HeadDecides(p: nat, x: nat, y: nat, u: nat, v: nat)
    requires x < y && u < p
    ensures x * p + u < y * p + v
  {
    Arithmetic.MulMonotone(x + 1, y, p);
  }

  lemma {:induction false} TextOrderIsNumeric(a: string, b: string)
    requires AllDigits(a) && AllDigits(b) && |a| == |b|
    ensures TextLess(a, b) <==> Value(a) < Value(b)
  {
    if a != "" {
      ValueHead(a);
      ValueHead(b);
      ValueBound(a[1..]);
      ValueBound(b[1..]);
      var p := Pow10(|a| - 1);
      if DigitValue(a[0]) < DigitValue(b[0]) {
        HeadDecides(p, DigitValue(a[0]), DigitValue(b[0]), Value(a[1..]), Value(b[1..]));
      } else if DigitValue(b[0]) < DigitValue(a[0]) {
        HeadDecides(p, DigitValue(b[0]), DigitValue(a[0]), Value(b[1..]), Value(a[1..]));
      } else {
        TextOrderIsNumeric(a[1..], b[1..]);
      }
    }
  }

  /** ORDER BY LENGTH(text), text. */
  predicate SequenceLess(a: string, b: string) {
    |a| < |b| || (|a| == |b| && TextLess(a, b))
  }

  /** On canonical strings the (length, text) order is the numeric order. */
  lemma SequenceOrderIsNumeric(a: string, b: string)
    requires Canonical(a) && Canonical(b)
    ensures SequenceLess(a, b) <==> Value(a) < Value(b)
    ensures a == b <==> Value(a) == Value(b)
  {
    PrintValue(a);
    PrintValue(b);
    if |a| == |b| {
      TextOrderIsNumeric(a, b);
    } else if |a| < |b| {
      ShorterIsSmaller(a, b);
    } else {
      ShorterIsSmaller(b, a);
    }
  }

  lemma ShorterIsSmaller(a: string, b: string)
    requires Canonical(a) && Canonical(b) && |a| < |b|
    ensures Value(a) < Value(b)
  {
    ValueBound(a);
    CanonicalPositive(b);
    Pow10Monotone(|a|, |b| - 1);
  }
}
