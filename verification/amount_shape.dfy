/** The amount pattern and the statement's own rendering of amounts agree: every
    amount the statement prints (`1.234,56`, `- 1.234,56`) is matched in full by the
    amount token `(?:-\s*)?\d{1,3}(?:[\. ]\d{3})*,\d{2}`. */
module AmountShape {
  import opened Basics
  import opened Text
  import opened Numerals
  import opened Money
  import opened Patterns

  /** The leading group of a grouped number: what is left after dropping whole
      thousands. */
  function Top(n: nat): (t: nat)
    ensures t < 1000
  {
    if n < 1000 then n else Top(n / 1000)
  }

  /** The dot-separated groups of three digits after the leading group. */
  function GroupTail(n: nat): string {
    if n < 1000 then [] else GroupTail(n / 1000) + "." + PadText(n % 1000, 3)
  }

  /** A run of complete `.ddd` groups. */
  predicate Blocks(t: string)
    decreases |t|
  {
    |t| == 0 || (|t| >= 4 && t[0] == '.' && AllDigits(t[1..4]) && Blocks(t[4..]))
  }

  lemma {:induction false} BlocksAppend(a: string, b: string)
    requires Blocks(a) && Blocks(b)
    ensures Blocks(a + b)
    decreases |a|
  {
    if |a| > 0 {
      BlocksAppend(a[4..], b);
      assert (a + b)[4..] == a[4..] + b;
      assert (a + b)[1..4] == a[1..4];
    } else {
      assert a + b == b;
    }
  }

  lemma OneBlock(p: string)
    requires |p| == 3 && AllDigits(p)
    ensures Blocks("." + p)
  {
    var t := "." + p;
    assert t[1..4] == p;
    assert |t[4..]| == 0;
  }

  /** Unfolding the three recursive descriptions of a number of at least 1000. */
  lemma GroupedStep(n: nat)
    requires n >= 1000
    ensures Top(n) == Top(n / 1000)
    ensures GroupTail(n) == GroupTail(n / 1000) + ("." + PadText(n % 1000, 3))
    ensures Grouped(n) == Grouped(n / 1000) + ("." + PadText(n % 1000, 3))
  {
  }

  /** A grouped number is its leading group followed by the remaining groups. */
  lemma {:induction false} GroupedSplit(n: nat)
    ensures Grouped(n) == NatText(Top(n)) + GroupTail(n)
  {
    if n >= 1000 {
      GroupedStep(n);
      GroupedSplit(n / 1000);
    } else {
      assert GroupTail(n) == [];
    }
  }

  /** The groups after the leading one are complete `.ddd` groups. */
  lemma {:induction false} GroupTailBlocks(n: nat)
    ensures Blocks(GroupTail(n))
  {
    if n >= 1000 {
      GroupedStep(n);
      GroupTailBlocks(n / 1000);
      OneBlock(PadText(n % 1000, 3));
      BlocksAppend(GroupTail(n / 1000), "." + PadText(n % 1000, 3));
    } else {
      assert GroupTail(n) == [];
    }
  }

  /** The leading group has one to three digits. */
  lemma LeadLength(n: nat)
    requires n < 1000
    ensures 1 <= |NatText(n)| <= 3
  {
    if n >= 10 {
      assert NatText(n) == NatText(n / 10) + [DigitChar(n % 10)];
      if n / 10 >= 10 {
        assert NatText(n / 10) == NatText(n / 100) + [DigitChar((n / 10) % 10)];
      }
    }
  }

  /** `DigitRun` counts exactly the digits present, up to its bound. */
  lemma {:induction false} DigitRunExact(s: string, q: nat, n: nat, max: nat)
    requires n <= max && q + n <= |s|
    requires forall i :: q <= i < q + n ==> IsDigit(s[i])
    requires n < max ==> q + n < |s| && !IsDigit(s[q + n])
    ensures DigitRun(s, q, max) == n
    decreases n
  {
    if n > 0 {
      DigitRunExact(s, q + 1, n - 1, max - 1);
    }
  }

  /** The characters of `t` are those of `s` from position `q` on. */
  predicate CharsAt(s: string, q: nat, t: string)
    requires q + |t| <= |s|
    decreases |t|
  {
    |t| == 0 || (s[q] == t[0] && CharsAt(s, q + 1, t[1..]))
  }

  /** `t` appears in `s` at position `q`. */
  predicate Placed(s: string, q: nat, t: string) {
    q + |t| <= |s| && CharsAt(s, q, t)
  }

  /** A character of a placed string. */
  lemma {:induction false} PlacedChar(s: string, q: nat, t: string, i: nat)
    requires Placed(s, q, t) && i < |t|
    ensures q + i < |s| && s[q + i] == t[i]
    decreases i
  {
    if i > 0 {
      PlacedChar(s, q + 1, t[1..], i - 1);
    }
  }

  /** The two halves of a placed concatenation are placed side by side. */
  lemma {:induction false} PlacedSplit(s: string, q: nat, a: string, b: string)
    requires Placed(s, q, a + b)
    ensures Placed(s, q, a) && Placed(s, q + |a|, b)
    decreases |a|
  {
    if |a| > 0 {
      assert (a + b)[0] == a[0] && (a + b)[1..] == a[1..] + b;
      PlacedSplit(s, q + 1, a[1..], b);
    } else {
      assert a + b == b;
    }
  }

  /** A slice of a placed string is placed at the matching offset. */
  lemma {:induction false} PlacedSlice(s: string, q: nat, t: string, i: nat, j: nat)
    requires Placed(s, q, t) && i <= j <= |t|
    ensures Placed(s, q + i, t[i..j])
    decreases j
  {
    if i > 0 {
      PlacedSlice(s, q + 1, t[1..], i - 1, j - 1);
      assert t[1..][i - 1..j - 1] == t[i..j];
    } else if j > 0 {
      PlacedSlice(s, q + 1, t[1..], 0, j - 1);
      assert t[1..][0..j - 1] == t[0..j][1..];
    }
  }

  /** A string is placed right after the prefix it follows. */
  lemma {:induction false} PlacedAfter(u: string, t: string, v: string)
    ensures Placed(u + t + v, |u|, t)
    decreases |t|
  {
    if |t| > 0 {
      PlacedAfter(u + [t[0]], t[1..], v);
      assert u + [t[0]] + t[1..] + v == u + t + v by {
        assert [t[0]] + t[1..] == t;
      }
      assert (u + t + v)[|u|] == t[0];
    }
  }

  /** The characters of a placed digit string are digits. */
  lemma PlacedDigits(s: string, q: nat, t: string)
    requires Placed(s, q, t) && AllDigits(t)
    ensures forall i :: q <= i < q + |t| ==> IsDigit(s[i])
  {
    forall i | q <= i < q + |t|
      ensures IsDigit(s[i])
    {
      PlacedChar(s, q, t, i - q);
    }
  }

  /** Complete groups are consumed one after another. */
  lemma {:induction false} GroupsEndBlocks(s: string, q: nat, t: string, anySpace: bool)
    requires Placed(s, q, t) && Blocks(t)
    ensures GroupsEnd(s, q, anySpace) == GroupsEnd(s, q + |t|, anySpace)
    decreases |t|
  {
    if |t| > 0 {
      PlacedSlice(s, q, t, 1, 4);
      PlacedSlice(s, q, t, 4, |t|);
      assert t[4..|t|] == t[4..];
      PlacedChar(s, q, t, 0);
      PlacedDigits(s, q + 1, t[1..4]);
      DigitRunExact(s, q + 1, 3, 3);
      DotIsSep(s[q], anySpace);
      assert GroupsEnd(s, q, anySpace) == GroupsEnd(s, q + 4, anySpace);
      GroupsEndBlocks(s, q + 4, t[4..], anySpace);
    }
  }

  /** A point separates groups whichever separators the token allows. */
  lemma DotIsSep(c: char, anySpace: bool)
    requires c == '.'
    ensures IsSep(c, anySpace)
  {
  }

  /** The leading group is read in full when a non-digit follows it. */
  lemma LeadScans(s: string, q: nat, lead: string)
    requires 1 <= |lead| <= 3 && AllDigits(lead) && Placed(s, q, lead)
    requires q + |lead| < |s| && !IsDigit(s[q + |lead|])
    ensures DigitRun(s, q, 3) == |lead|
  {
    PlacedDigits(s, q, lead);
    DigitRunExact(s, q, |lead|, 3);
  }

  /** No group starts at a decimal comma. */
  lemma CommaEndsGroups(s: string, r: nat, anySpace: bool)
    requires r < |s| && s[r] == ','
    ensures GroupsEnd(s, r, anySpace) == r
  {
  }

  /** A comma and two digits are the decimals. */
  lemma DecimalsScan(s: string, r: nat, frac: string)
    requires |frac| == 2 && AllDigits(frac) && Placed(s, r, "," + frac)
    ensures CentsEnd(s, r) == Some(r + 3) && s[r] == ','

  {
    PlacedChar(s, r, "," + frac, 0);
    PlacedChar(s, r, "," + frac, 1);
    PlacedChar(s, r, "," + frac, 2);
  }

  /** A number is a leading run of digits, the groups after it, and the decimals. */
  lemma NumberSteps(s: string, q: nat, lead: nat, r: nat, anySpace: bool)
    requires q + lead <= r < |s| && lead >= 1 && DigitRun(s, q, 3) == lead
    requires GroupsEnd(s, q + lead, anySpace) == r && CentsEnd(s, r) == Some(r + 3)
    ensures NumberEnd(s, q, anySpace) == Some(r + 3)
  {
  }

  /** Complete groups followed by the decimals are consumed up to the comma, and
      the decimals follow. */
  lemma TailScans(s: string, p: nat, tail: string, frac: string, anySpace: bool)
    requires Blocks(tail) && |frac| == 2 && AllDigits(frac)
    requires Placed(s, p, tail + ("," + frac))
    ensures p + |tail| < |s| && !IsDigit(s[p])
    ensures GroupsEnd(s, p, anySpace) == p + |tail|
    ensures CentsEnd(s, p + |tail|) == Some(p + |tail| + 3)
  {
    PlacedSplit(s, p, tail, "," + frac);
    DecimalsScan(s, p + |tail|, frac);
    if |tail| > 0 {
      PlacedChar(s, p, tail, 0);
    }
    GroupsEndBlocks(s, p, tail, anySpace);
    CommaEndsGroups(s, p + |tail|, anySpace);
  }

  /** A leading group, complete groups and `,dd` form one number. */
  lemma NumberScans(s: string, q: nat, lead: string, tail: string, frac: string, anySpace: bool)
    requires 1 <= |lead| <= 3 && AllDigits(lead) && Blocks(tail)
    requires |frac| == 2 && AllDigits(frac)
    requires Placed(s, q, lead + (tail + ("," + frac)))
    ensures IsDigit(s[q])
    ensures NumberEnd(s, q, anySpace) == Some(q + |lead| + |tail| + 3)
  {
    var r := q + |lead| + |tail|;
    LeadTailScans(s, q, lead, tail, frac, anySpace);
    NumberSteps(s, q, |lead|, r, anySpace);
  }

  /** The facts `NumberSteps` needs about a leading group, complete groups and
      the decimals. */
  lemma LeadTailScans(s: string, q: nat, lead: string, tail: string, frac: string, anySpace: bool)
    requires 1 <= |lead| <= 3 && AllDigits(lead) && Blocks(tail)
    requires |frac| == 2 && AllDigits(frac)
    requires Placed(s, q, lead + (tail + ("," + frac)))
    ensures var r := q + |lead| + |tail|;
      && r < |s| && IsDigit(s[q]) && DigitRun(s, q, 3) == |lead|
      && GroupsEnd(s, q + |lead|, anySpace) == r && CentsEnd(s, r) == Some(r + 3)
  {
    PlacedSplit(s, q, lead, tail + ("," + frac));
    TailScans(s, q + |lead|, tail, frac, anySpace);
    LeadScans(s, q, lead);
    PlacedChar(s, q, lead, 0);
  }

  /** The credit mark is the optional `-\s*` in front of the number. */
  lemma MarkScans(s: string, q: nat, neg: bool)
    requires Placed(s, q, CreditMark(neg)) && q + |CreditMark(neg)| < |s|
    requires IsDigit(s[q + |CreditMark(neg)|])
    ensures SignEnd(s, q, Sign.OptionalMinusSpaces) == q + |CreditMark(neg)|
  {
    if neg {
      PlacedChar(s, q, CreditMark(neg), 0);
      PlacedChar(s, q, CreditMark(neg), 1);
      assert SpaceRun(s, q + 2) == 0;
    }
  }

  /** A rendered amount consists of the credit mark, the leading group, complete
      groups, and the decimal comma with two digits. */
  lemma FormatParts(cents: int) returns (neg: bool, lead: string, tail: string, frac: string)
    ensures neg == (cents < 0)
    ensures FormatBrl(cents) == CreditMark(neg) + (lead + (tail + ("," + frac)))
    ensures 1 <= |lead| <= 3 && AllDigits(lead) && Blocks(tail)
    ensures |frac| == 2 && AllDigits(frac)
  {
    var a := if cents < 0 then -cents else cents;
    var n := a / 100;
    neg, lead, tail, frac := cents < 0, NatText(Top(n)), GroupTail(n), PadText(a % 100, 2);
    GroupedSplit(n);
    GroupTailBlocks(n);
    LeadLength(Top(n));
  }

  /** Wherever a rendered amount appears, the amount token starting there spans
      exactly the rendering. */
  lemma PlacedAmountScans(s: string, p: nat, cents: int, anySpace: bool)
    requires Placed(s, p, FormatBrl(cents))
    ensures AmountEnd(s, p, Sign.OptionalMinusSpaces, anySpace) == Some(p + |FormatBrl(cents)|)
  {
    var neg, lead, tail, frac := FormatParts(cents);
    MarkedNumberScans(s, p, neg, lead, tail, frac, anySpace);
  }

  /** The credit mark followed by a number is one amount token. */
  lemma MarkedNumberScans(s: string, p: nat, neg: bool, lead: string, tail: string, frac: string, anySpace: bool)
    requires 1 <= |lead| <= 3 && AllDigits(lead) && Blocks(tail)
    requires |frac| == 2 && AllDigits(frac)
    requires Placed(s, p, CreditMark(neg) + (lead + (tail + ("," + frac))))
    ensures AmountEnd(s, p, Sign.OptionalMinusSpaces, anySpace)
         == Some(p + |CreditMark(neg) + (lead + (tail + ("," + frac)))|)
  {
    var mark, body := CreditMark(neg), lead + (tail + ("," + frac));
    var q := p + |mark|;
    PlacedSplit(s, p, mark, body);
    NumberScans(s, q, lead, tail, frac, anySpace);
    MarkScans(s, p, neg);
    assert SignEnd(s, p, Sign.OptionalMinusSpaces) == q;
  }

  /** Every rendered amount is an amount token, and the token ends exactly where the
      rendering does, whatever surrounds it. */
  lemma RenderedAmountScans(u: string, cents: int, v: string)
    ensures AmountEnd(u + FormatBrl(cents) + v, |u|, Sign.OptionalMinusSpaces, false)
         == Some(|u| + |FormatBrl(cents)|)
  {
    PlacedAfter(u, FormatBrl(cents), v);
    PlacedAmountScans(u + FormatBrl(cents) + v, |u|, cents, false);
  }
}
