/** Fixed-width, zero-padded rendering of natural numbers as digit strings, in any
    base from 2 to 16 (lower-case hexadecimal digits), and the inverse reading. The
    date formatter uses base 10 and the Guid formatter base 16. */
module NumberText {

  type Base = b: nat | 2 <= b <= 16 witness 10

  function Pow(b: nat, e: nat): nat
  {
    if e == 0 then 1 else b * Pow(b, e - 1)
  }

  lemma {:induction false} PowPositive(b: Base, e: nat)
    ensures Pow(b, e) >= 1
  {
    if e > 0 {
      PowPositive(b, e - 1);
    }
  }

  predicate IsDigit(c: char, base: Base)
  {
    || ('0' <= c <= '9' && (c as int - '0' as int) < base)
    || ('a' <= c <= 'f' && (c as int - 'a' as int) + 10 < base)
  }

  predicate AllDigits(s: string, base: Base)
  {
    forall i :: 0 <= i < |s| ==> IsDigit(s[i], base)
  }

  function DigitChar(d: nat): (c: char)
    requires d < 16
    ensures d < 10 ==> '0' <= c <= '9'
  {
    if d < 10 then ('0' as int + d) as char else ('a' as int + d - 10) as char
  }

  function DigitValue(c: char): (d: nat)
    requires IsDigit(c, 16)
    ensures d < 16
    ensures DigitChar(d) == c
  {
    if '0' <= c <= '9' then c as int - '0' as int else c as int - 'a' as int + 10
  }

  /** The low `width` digits of `n` in `base`, most significant first, padded with zeros. */
  function Pad(n: nat, width: nat, base: Base): (s: string)
    ensures |s| == width
    ensures AllDigits(s, base)
  {
    if width == 0 then "" else Pad(n / base, width - 1, base) + [DigitChar(n % base)]
  }

  /** The number a digit string denotes. */
  function ValueOf(s: string, base: Base): nat
    requires AllDigits(s, base)
  {
    if s == "" then 0 else ValueOf(s[..|s| - 1], base) * base + DigitValue(s[|s| - 1])
  }

  lemma DivModUnique(q: nat, d: nat, b: Base)
    requires d < b
    ensures (q * b + d) / b == q && (q * b + d) % b == d
  {
    var n := q * b + d;
    var q', d' := n / b, n % b;
    assert q' * b + d' == n;
    assert (q + 1) * b == q * b + b && (q' + 1) * b == q' * b + b;
    if q + 1 <= q' {
      MulMonotone(q + 1, q', b);
      assert false;
    }
    if q' + 1 <= q {
      MulMonotone(q' + 1, q, b);
      assert false;
    }
  }

  lemma MulMonotone(x: nat, y: nat, b: nat)
    requires x <= y
    ensures x * b <= y * b
  {
  }

  lemma DivBound(n: nat, b: Base, p: nat)
    requires n < b * p
    ensures n / b < p
  {
    var q := n / b;
    assert q * b + n % b == n;
    if q >= p {
      MulMonotone(p, q, b);
      assert false;
    }
  }

  lemma DivModOf(n: nat, b: Base)
    ensures n == (n / b) * b + n % b && n % b < b
  {
  }

  lemma QuotientFits(n: nat, b: Base, width: nat)
    requires width > 0 && n < Pow(b, width)
    ensures n / b < Pow(b, width - 1)
  {
    DivBound(n, b, Pow(b, width - 1));
  }

  lemma ValueOfSnoc(init: string, c: char, base: Base)
    requires AllDigits(init, base) && IsDigit(c, base)
    ensures AllDigits(init + [c], base)
    ensures ValueOf(init + [c], base) == ValueOf(init, base) * base + DigitValue(c)
  {
    assert (init + [c])[..|init|] == init;
  }

  lemma DigitRoundTrip(d: nat, base: Base)
    requires d < base
    ensures IsDigit(DigitChar(d), base) && DigitValue(DigitChar(d)) == d
  {
  }

  lemma DigitValueBelow(c: char, base: Base)
    requires IsDigit(c, base)
    ensures DigitValue(c) < base
  {
  }

  /** Reading back a padded number gives the number, when it fits the width. */
  lemma {:induction false} ValueOfPad(n: nat, width: nat, base: Base)
    requires n < Pow(base, width)
    ensures ValueOf(Pad(n, width, base), base) == n
    decreases width
  {
    if width > 0 {
      var q, r := n / base, n % base;
      var init := Pad(q, width - 1, base);
      var c := DigitChar(r);
      assert q < Pow(base, width - 1) by { QuotientFits(n, base, width); }
      ValueOfPad(q, width - 1, base);
      assert Pad(n, width, base) == init + [c];
      assert r < base && n == q * base + r by { DivModOf(n, base); }
      DigitRoundTrip(r, base);
      ValueOfSnoc(init, c, base);
    }
  }

  /** Padding the value of a digit string to its own length gives the string back. */
  lemma {:induction false} PadValueOf(s: string, base: Base)
    requires AllDigits(s, base)
    ensures Pad(ValueOf(s, base), |s|, base) == s
  {
    if s != "" {
      var init := s[..|s| - 1];
      var d := DigitValue(s[|s| - 1]);
      assert IsDigit(s[|s| - 1], base);
      assert d < base;
      DivModUnique(ValueOf(init, base), d, base);
      PadValueOf(init, base);
      assert s == init + [s[|s| - 1]];
    }
  }

  lemma BoundStep(v: nat, d: nat, b: nat, p: nat)
    requires v < p && d < b
    ensures v * b + d < b * p
  {
    MulMonotone(v + 1, p, b);
    assert (v + 1) * b == v * b + b;
  }

  /** A digit string of length w denotes a number below base^w. */
  lemma {:induction false} ValueOfBound(s: string, base: Base)
    requires AllDigits(s, base)
    ensures ValueOf(s, base) < Pow(base, |s|)
  {
    if s != "" {
      var init := s[..|s| - 1];
      assert AllDigits(init, base) by {
        forall i | 0 <= i < |init| ensures IsDigit(init[i], base) { assert init[i] == s[i]; }
      }
      ValueOfBound(init, base);
      var v := ValueOf(init, base);
      var d := DigitValue(s[|s| - 1]);
      DigitValueBelow(s[|s| - 1], base);
      assert ValueOf(s, base) == v * base + d;
      BoundStep(v, d, base, Pow(base, |init|));
      assert Pow(base, |s|) == base * Pow(base, |init|);
    }
  }
}
