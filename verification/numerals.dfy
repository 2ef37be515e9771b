/** Decimal digit strings: reading them as numbers (Python's `int` on an ASCII digit
    string) and writing numbers back as digits. */
module Numerals {
  import opened Text

  function DigitValue(c: char): nat
    requires IsDigit(c)
  {
    c as int - '0' as int
  }

  function DigitChar(d: nat): (c: char)
    requires d < 10
    ensures IsDigit(c) && DigitValue(c) == d
  {
    ('0' as int + d) as char
  }

  function Pow10(k: nat): (p: nat)
    ensures p >= 1
  {
    if k == 0 then 1 else 10 * Pow10(k - 1)
  }

  /** The number a string of decimal digits denotes. */
  function ValueOf(s: string): nat
    requires AllDigits(s)
  {
    if |s| == 0 then 0 else ValueOf(s[..|s| - 1]) * 10 + DigitValue(s[|s| - 1])
  }

  /** Reading a concatenation shifts the left part by the length of the right part. */
  lemma {:induction false} ValueOfAppend(a: string, b: string)
    requires AllDigits(a) && AllDigits(b)
    ensures AllDigits(a + b)
    ensures ValueOf(a + b) == ValueOf(a) * Pow10(|b|) + ValueOf(b)
    decreases |b|
  {
    var s := a + b;
    if |b| > 0 {
      var b' := b[..|b| - 1];
      assert s[..|s| - 1] == a + b';
      ValueOfAppend(a, b');
      ShiftDigit(ValueOf(a), Pow10(|b'|), ValueOf(b'), DigitValue(b[|b| - 1]));
    } else {
      assert s == a;
    }
  }

  /** Appending a digit to a shifted sum shifts it once more. */
  lemma ShiftDigit(x: nat, p: nat, y: nat, d: nat)
    ensures (x * p + y) * 10 + d == x * (10 * p) + (y * 10 + d)
  {
  }

  /** Division by `m` is determined by any quotient/remainder pair. */
  lemma DivModUnique(n: int, m: int, q: int, r: int)
    requires m > 0 && n == m * q + r && 0 <= r < m
    ensures n / m == q && n % m == r
  {
    var d := q - n / m;
    assert m * d == n % m - r by {
      assert m * q == m * (n / m) + m * d;
    }
    assert d >= 1 ==> m * d >= m;
    assert d <= -1 ==> m * d <= -m;
  }

  /** Dropping the last digit and reducing modulo `p` commutes with reducing modulo `10 * p`. */
  lemma ModShift(n: nat, p: nat)
    requires p >= 1
    ensures n % (10 * p) == ((n / 10) % p) * 10 + n % 10
  {
    var q := n / 10;
    var a, b := q / p, q % p;
    assert q == p * a + b;
    assert n == 10 * q + n % 10;
    assert n == (10 * p) * a + (b * 10 + n % 10) by {
      assert 10 * q == (10 * p) * a + 10 * b;
    }
    assert b * 10 + n % 10 < 10 * p by {
      assert b <= p - 1;
      assert b * 10 <= 10 * p - 10;
    }
    DivModUnique(n, 10 * p, a, b * 10 + n % 10);
  }

  /** `n` written with exactly `width` digits (leading zeros; higher digits dropped). */
  function PadText(n: nat, width: nat): (r: string)
    ensures |r| == width && AllDigits(r)
  {
    if width == 0 then [] else PadText(n / 10, width - 1) + [DigitChar(n % 10)]
  }

  /** A padded field denotes the number modulo the field's range. */
  lemma {:induction false} PadTextValue(n: nat, width: nat)
    ensures ValueOf(PadText(n, width)) == n % Pow10(width)
    decreases width
  {
    if width > 0 {
      var r := PadText(n, width);
      assert r[..|r| - 1] == PadText(n / 10, width - 1);
      PadTextValue(n / 10, width - 1);
      ModShift(n, Pow10(width - 1));
    }
  }

  /** `n` in the shortest decimal form, as Python's `str` writes a natural number. */
  function NatText(n: nat): (r: string)
    ensures |r| >= 1 && AllDigits(r)
  {
    if n < 10 then [DigitChar(n)] else NatText(n / 10) + [DigitChar(n % 10)]
  }

  /** The shortest decimal form denotes the number. */
  lemma {:induction false} NatTextValue(n: nat)
    ensures ValueOf(NatText(n)) == n
  {
    if n >= 10 {
      var r := NatText(n);
      assert r[..|r| - 1] == NatText(n / 10);
      NatTextValue(n / 10);
    }
  }

  /** A string of `k` digits denotes a number below `10^k`. */
  lemma {:induction false} ValueOfBound(s: string)
    requires AllDigits(s)
    ensures ValueOf(s) < Pow10(|s|)
    decreases |s|
  {
    if |s| > 0 {
      ValueOfBound(s[..|s| - 1]);
    }
  }
}
