/** Money as integer cents: the parser's Brazilian-format amount reader
    (`_parse_brl_amount`), Python's `str(Decimal)` for two-place amounts, and the
    statement's own rendering of an amount, used to state round trips. */
module Money {
  import opened Basics
  import opened Text
  import opened Numerals

  /** What the three `replace` calls do to one character: spaces and dots vanish,
      the decimal comma becomes a point. */
  function CleanChar(c: char): string {
    if c == ' ' || c == '.' then [] else if c == ',' then ['.'] else [c]
  }

  /** `s.replace(" ", "").replace(".", "").replace(",", ".")`. */
  function Clean(s: string): (r: string)
    ensures |r| <= |s|
  {
    if |s| == 0 then [] else CleanChar(s[0]) + Clean(s[1..])
  }

  lemma {:induction false} CleanAppend(a: string, b: string)
    ensures Clean(a + b) == Clean(a) + Clean(b)
    decreases |a|
  {
    if |a| > 0 {
      assert (a + b)[1..] == a[1..] + b;
      CleanAppend(a[1..], b);
    } else {
      assert a + b == b;
    }
  }

  /** Digits pass through `Clean` untouched. */
  lemma {:induction false} CleanDigits(s: string)
    requires AllDigits(s)
    ensures Clean(s) == s
    decreases |s|
  {
    if |s| > 0 {
      CleanDigits(s[1..]);
      assert s == [s[0]] + s[1..];
    }
  }

  /** `Decimal(t)` for the unsigned form `D+.DD`, in cents. */
  function UnsignedCents(t: string): Option<nat> {
    if |t| >= 4 && t[|t| - 3] == '.' && AllDigits(t[..|t| - 3]) && AllDigits(t[|t| - 2..]) then
      Some(ValueOf(t[..|t| - 3]) * 100 + ValueOf(t[|t| - 2..]))
    else None
  }

  /** `Decimal(t)` for the plain form `-?D+.DD`, in cents. Every other spelling is
      `None`; `ParseBrlAmount` turns it into the zero of the source's
      `InvalidOperation` branch. */
  function DecimalCents(t: string): (r: Option<int>)
    ensures r.Some? ==> (r.value < 0 ==> |t| > 0 && t[0] == '-')
  {
    if |t| > 0 && t[0] == '-' then
      match UnsignedCents(t[1..])
      case Some(v) => Some(-(v as int))
      case None => None
    else
      match UnsignedCents(t)
      case Some(v) => Some(v)
      case None => None
  }

  /** The parser's `_parse_brl_amount`, in cents: clean the token and read it as a
      decimal; a token that does not read gives 0 and never fails. */
  function ParseBrlAmount(s: string): (cents: int)
    ensures DecimalCents(Clean(s)).None? ==> cents == 0
    ensures cents < 0 ==> '-' in s
  {
    var c := Clean(s);
    match DecimalCents(c)
    case Some(v) =>
      assert v < 0 ==> c[0] in Clean(s) && c[0] == '-';
      MinusSurvivesClean(s);
      v
    case None => 0
  }

  /** A minus in the cleaned text was already in the original text. */
  lemma {:induction false} MinusSurvivesClean(s: string)
    ensures '-' in Clean(s) ==> '-' in s
    decreases |s|
  {
    if |s| > 0 {
      MinusSurvivesClean(s[1..]);
      assert '-' in CleanChar(s[0]) ==> s[0] == '-';
    }
  }

  /** A digit string, a point and two digits read as that value. */
  lemma UnsignedCentsOfParts(whole: string, frac: string)
    requires |whole| >= 1 && AllDigits(whole) && |frac| == 2 && AllDigits(frac)
    ensures UnsignedCents(whole + "." + frac) == Some(ValueOf(whole) * 100 + ValueOf(frac))
  {
    var t := whole + "." + frac;
    assert t[..|t| - 3] == whole;
    assert t[|t| - 2..] == frac;
  }

  /** The minus sign `str(Decimal)` writes before a negative amount. */
  function Sign(neg: bool): string {
    if neg then "-" else ""
  }

  /** A sign before an unsigned decimal that starts with a digit gives the signed
      value. */
  lemma SignedCents(neg: bool, body: string)
    requires UnsignedCents(body).Some? && IsDigit(body[0])
    ensures var v := UnsignedCents(body).value as int;
      DecimalCents(Sign(neg) + body) == Some(if neg then -v else v)
  {
    if neg {
      assert (Sign(neg) + body)[1..] == body;
    } else {
      assert Sign(neg) + body == body;
    }
  }

  /** `str(Decimal)` of a two-place amount: optional minus, integer part without
      grouping, a point and two decimals. */
  function DecimalText(cents: int): string {
    var a := if cents < 0 then -cents else cents;
    Sign(cents < 0) + (NatText(a / 100) + "." + PadText(a % 100, 2))
  }

  /** An integer part worth `a / 100` and two decimals written from `a % 100`
      together read as `a` cents. */
  lemma ReadParts(a: nat, whole: string, frac: string)
    requires AllDigits(whole) && ValueOf(whole) == a / 100
    requires frac == PadText(a % 100, 2)
    ensures ValueOf(whole) * 100 + ValueOf(frac) == a
  {
    PowThree();
    PadTextValue(a % 100, 2);
    assert ValueOf(frac) == a % 100;
  }

  /** An integer part worth `a / 100`, a point and the two decimals of `a` read as
      `a` cents. */
  lemma BodyReads(whole: string, a: nat)
    requires |whole| >= 1 && AllDigits(whole) && ValueOf(whole) == a / 100
    ensures var body := whole + "." + PadText(a % 100, 2);
      UnsignedCents(body) == Some(a) && IsDigit(body[0])
  {
    var frac := PadText(a % 100, 2);
    ReadParts(a, whole, frac);
    UnsignedCentsOfParts(whole, frac);
    assert (whole + "." + frac)[0] == whole[0];
  }

  /** Reading `str(Decimal)` back as a decimal gives the amount. */
  lemma DecimalTextRoundTrip(cents: int)
    ensures DecimalCents(DecimalText(cents)) == Some(cents)
  {
    var a := if cents < 0 then -cents else cents;
    NatTextValue(a / 100);
    BodyReads(NatText(a / 100), a);
    SignedCents(cents < 0, NatText(a / 100) + "." + PadText(a % 100, 2));
  }

  /** The integer part as the statement prints it: groups of three digits separated
      by dots. */
  function Grouped(n: nat): (r: string)
    ensures |r| >= 1 && IsDigit(r[0]) && IsDigit(r[|r| - 1])
  {
    if n < 1000 then NatText(n) else Grouped(n / 1000) + "." + PadText(n % 1000, 3)
  }

  /** The prefix the statement prints before a credit: a minus and a space. */
  function CreditMark(neg: bool): string {
    if neg then "- " else ""
  }

  /** An amount as the statement prints it: `1.234,56`, and `- 1.234,56` for a credit. */
  function FormatBrl(cents: int): string {
    var a := if cents < 0 then -cents else cents;
    CreditMark(cents < 0) + (Grouped(a / 100) + "," + PadText(a % 100, 2))
  }

  /** Cleaning a single character. */
  lemma CleanOne(c: char)
    ensures Clean([c]) == CleanChar(c)
  {
    assert [c][1..] == [];
  }

  /** Cleaning removes a group separator and keeps the group's digits. */
  lemma CleanGroup(g: string, p: string)
    requires AllDigits(p)
    ensures Clean(g + "." + p) == Clean(g) + p
  {
    CleanAppend(g + ".", p);
    CleanAppend(g, ".");
    CleanOne('.');
    CleanDigits(p);
  }

  /** Cleaning turns the decimal comma into a point and keeps the decimals. */
  lemma CleanDecimals(g: string, p: string)
    requires AllDigits(p)
    ensures Clean(g + "," + p) == Clean(g) + "." + p
  {
    CleanAppend(g + ",", p);
    CleanAppend(g, ",");
    CleanOne(',');
    CleanDigits(p);
  }

  /** The credit mark cleans to the minus sign of `str(Decimal)`. */
  lemma CleanCreditMark(neg: bool)
    ensures Clean(CreditMark(neg)) == Sign(neg)
  {
    if neg {
      assert CreditMark(neg) == ['-'] + [' '];
      CleanAppend(['-'], [' ']);
      CleanOne('-');
      CleanOne(' ');
    } else {
      assert CreditMark(neg) == [];
    }
  }

  /** Cleaning a grouped integer part leaves the digits of the number. */
  lemma {:induction false} CleanGrouped(n: nat)
    ensures |Clean(Grouped(n))| >= 1 && AllDigits(Clean(Grouped(n)))
    ensures ValueOf(Clean(Grouped(n))) == n
  {
    if n < 1000 {
      CleanDigits(NatText(n));
      NatTextValue(n);
    } else {
      var g := Grouped(n / 1000);
      var p := PadText(n % 1000, 3);
      CleanGrouped(n / 1000);
      CleanGroup(g, p);
      GroupAppend(Clean(g), n);
    }
  }

  /** The digits of `n / 1000` followed by the three padded digits of `n % 1000`
      denote `n`. */
  lemma GroupAppend(high: string, n: nat)
    requires |high| >= 1 && AllDigits(high) && ValueOf(high) == n / 1000
    ensures var t := high + PadText(n % 1000, 3); |t| >= 1 && AllDigits(t) && ValueOf(t) == n
  {
    var p := PadText(n % 1000, 3);
    ValueOfAppend(high, p);
    PowThree();
    PadTextValue(n % 1000, 3);
    var low := n % 1000;
    assert low % 1000 == low;
    assert ValueOf(high + p) == (n / 1000) * 1000 + low;
  }

  lemma PowThree()
    ensures Pow10(3) == 1000 && Pow10(2) == 100
  {
  }

  /** Cleaning a rendered amount gives `-?D+.DD` with the digits of the amount. */
  lemma CleanFormat(cents: int)
    ensures var a := if cents < 0 then -cents else cents;
      Clean(FormatBrl(cents))
      == Sign(cents < 0) + (Clean(Grouped(a / 100)) + "." + PadText(a % 100, 2))
  {
    var a := if cents < 0 then -cents else cents;
    var g := Grouped(a / 100);
    var p := PadText(a % 100, 2);
    CleanAppend(CreditMark(cents < 0), g + "," + p);
    CleanCreditMark(cents < 0);
    CleanDecimals(g, p);
  }

  /** The amount reader inverts the statement's rendering: every amount, positive
      or negative, reads back as itself. */
  lemma BrlRoundTrip(cents: int)
    ensures ParseBrlAmount(FormatBrl(cents)) == cents
  {
    var a := if cents < 0 then -cents else cents;
    var whole, frac := Clean(Grouped(a / 100)), PadText(a % 100, 2);
    CleanFormat(cents);
    CleanGrouped(a / 100);
    BodyReads(whole, a);
    SignedCents(cents < 0, whole + "." + frac);
  }

  /** A character other than a space, a dot or a comma survives the cleaning. */
  lemma {:induction false} KeptByClean(s: string, c: char)
    requires c in s && c != ' ' && c != '.' && c != ','
    ensures c in Clean(s)
    decreases |s|
  {
    if s[0] == c {
      assert Clean(s) == [c] + Clean(s[1..]);
    } else {
      assert c in s[1..];
      KeptByClean(s[1..], c);
    }
  }

  /** A decimal that reads is made of digits, the point and the minus only. */
  lemma DecimalCharacters(t: string, i: int)
    requires DecimalCents(t).Some? && 0 <= i < |t|
    ensures IsDigit(t[i]) || t[i] == '.' || t[i] == '-'
  {
    var u := if t[0] == '-' then t[1..] else t;
    var j := if t[0] == '-' then i - 1 else i;
    if j >= 0 {
      assert u[j] == t[i];
      if j < |u| - 3 {
        assert u[..|u| - 3][j] == u[j];
      } else if j > |u| - 3 {
        assert u[|u| - 2..][j - (|u| - 2)] == u[j];
      }
    }
  }

  /** A printable ASCII character that `Decimal` accepts nowhere in a number: not a
      digit, not a letter (exponents, `NaN`, `Infinity`), and none of the sign,
      point, underscore and separator characters. */
  predicate Stray(c: char) {
    && '!' <= c <= '~' && !IsDigit(c) && !('a' <= c <= 'z') && !('A' <= c <= 'Z')
    && c !in "+-.,_"
  }

  /** A stray character survives cleaning and makes the token unreadable, so it reads
      as 0. */
  lemma ForeignCharacterReadsZero(s: string, c: char)
    requires c in s && Stray(c)
    ensures ParseBrlAmount(s) == 0
  {
    KeptByClean(s, c);
    var t := Clean(s);
    var i :| 0 <= i < |t| && t[i] == c;
    if DecimalCents(t).Some? {
      DecimalCharacters(t, i);
    }
  }
}
