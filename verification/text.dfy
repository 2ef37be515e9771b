/** Character classes and the handful of Python `str` operations the parser relies
    on: `strip`, `in`, `startswith`, `lower`, `upper` and `split`. */
module Text {

  /** Python's `str.isspace` (and so the `\s` class and the set `strip()` removes):
      the ASCII controls 9-13 and 28-31, the space, and the Unicode separators. */
  predicate IsSpace(c: char) {
    || ('\t' <= c <= '\r')
    || ('\U{1C}' <= c <= ' ')
    || c == '\U{85}' || c == '\U{A0}' || c == '\U{1680}'
    || ('\U{2000}' <= c <= '\U{200A}')
    || c == '\U{2028}' || c == '\U{2029}' || c == '\U{202F}' || c == '\U{205F}'
    || c == '\U{3000}'
  }

  /** An ASCII decimal digit (the `\d` class, restricted to ASCII). */
  predicate IsDigit(c: char) {
    '0' <= c <= '9'
  }

  predicate AllSpace(s: string) {
    forall i :: 0 <= i < |s| ==> IsSpace(s[i])
  }

  predicate AllDigits(s: string) {
    forall i :: 0 <= i < |s| ==> IsDigit(s[i])
  }

  /** Number of whitespace characters at the front of `s`. */
  function LeadingSpaces(s: string): (n: nat)
    ensures n <= |s|
    ensures forall i :: 0 <= i < n ==> IsSpace(s[i])
    ensures n < |s| ==> !IsSpace(s[n])
  {
    if |s| > 0 && IsSpace(s[0]) then 1 + LeadingSpaces(s[1..]) else 0
  }

  /** Number of whitespace characters at the back of `s`. */
  function TrailingSpaces(s: string): (n: nat)
    ensures n <= |s|
    ensures forall i :: |s| - n <= i < |s| ==> IsSpace(s[i])
    ensures n < |s| ==> !IsSpace(s[|s| - n - 1])
  {
    if |s| > 0 && IsSpace(s[|s| - 1]) then 1 + TrailingSpaces(s[..|s| - 1]) else 0
  }

  /** A string with no whitespace at either end. */
  predicate Trimmed(r: string) {
    r == [] || (!IsSpace(r[0]) && !IsSpace(r[|r| - 1]))
  }

  /** `s` is `r` with only whitespace added on both sides. */
  predicate PaddedBy(s: string, r: string, a: int, b: int) {
    && 0 <= a <= b <= |s| && s[a..b] == r
    && (forall i :: 0 <= i < a ==> IsSpace(s[i]))
    && (forall i :: b <= i < |s| ==> IsSpace(s[i]))
  }

  /** Python's `str.strip()`: the result is trimmed, and it is what remains of `s`
      once whitespace is removed from both ends. */
  function Strip(s: string): (r: string)
    ensures Trimmed(r)
    ensures exists a, b :: PaddedBy(s, r, a, b)
  {
    var a := LeadingSpaces(s);
    if a == |s| then
      assert PaddedBy(s, [], |s|, |s|);
      []
    else
      var t := TrailingSpaces(s);
      assert PaddedBy(s, s[a..|s| - t], a, |s| - t);
      s[a..|s| - t]
  }

  /** `Strip` is fully determined by its contract: any trimmed core of `s` padded
      only with whitespace is the one `Strip` returns. */
  lemma StripUnique(s: string, r: string, a: int, b: int)
    requires PaddedBy(s, r, a, b) && Trimmed(r)
    ensures Strip(s) == r
  {
    if r != [] {
      assert s[a] == r[0] && s[b - 1] == r[|r| - 1];
    }
  }

  /** Stripping twice is stripping once. */
  lemma StripIdempotent(s: string)
    ensures Strip(Strip(s)) == Strip(s)
  {
    var r := Strip(s);
    assert PaddedBy(r, r, 0, |r|);
    StripUnique(r, r, 0, |r|);
  }

  /** `t` occurs in `s` at index `k`. */
  predicate OccursAt(s: string, t: string, k: int) {
    0 <= k && k + |t| <= |s| && s[k..k + |t|] == t
  }

  /** Python's `t in s`: true exactly when `t` occurs somewhere in `s`. */
  function Contains(s: string, t: string): (r: bool)
    ensures r <==> exists k :: OccursAt(s, t, k)
    decreases |s|
  {
    if |t| > |s| then
      assert forall k :: !OccursAt(s, t, k);
      false
    else if s[..|t|] == t then
      assert OccursAt(s, t, 0);
      true
    else
      var rest := Contains(s[1..], t);
      assert rest ==> exists k :: OccursAt(s, t, k) by {
        if rest {
          var k :| OccursAt(s[1..], t, k);
          assert s[1..][k..k + |t|] == s[k + 1..k + 1 + |t|];
          assert OccursAt(s, t, k + 1);
        }
      }
      assert (exists k :: OccursAt(s, t, k)) ==> rest by {
        if exists k :: OccursAt(s, t, k) {
          var k :| OccursAt(s, t, k);
          assert k != 0;
          assert s[1..][k - 1..k - 1 + |t|] == s[k..k + |t|];
          assert OccursAt(s[1..], t, k - 1);
        }
      }
      rest
  }

  /** Python's `s.startswith(t)`. */
  predicate StartsWith(s: string, t: string) {
    |t| <= |s| && s[..|t|] == t
  }

  /** `t` occurs in `s` at index `p` (the form the pattern scanners use). */
  predicate LiteralAt(s: string, p: nat, t: string) {
    p + |t| <= |s| && s[p..p + |t|] == t
  }

  /** Python's `any(w in line for w in words)`. */
  function ContainsAny(line: string, words: seq<string>): (r: bool)
    ensures r <==> exists j :: 0 <= j < |words| && Contains(line, words[j])
  {
    if |words| == 0 then false
    else Contains(line, words[0]) || ContainsAny(line, words[1..])
  }

  /** An ASCII or Latin-1 capital (`×` is not a letter). */
  predicate IsCapital(c: char) {
    'A' <= c <= 'Z' || ('\U{C0}' <= c <= '\U{DE}' && c != '\U{D7}')
  }

  /** An ASCII or Latin-1 small letter with a one-letter capital: `ß` has none, and
      `÷` is not a letter. */
  predicate IsSmall(c: char) {
    'a' <= c <= 'z' || ('\U{E0}' <= c <= '\U{FF}' && c != '\U{F7}') || c == '\U{B5}'
  }

  /** Lower-case mapping of ASCII and Latin-1 capitals; every other character is
      left as it is. */
  function LowerChar(c: char): char {
    if IsCapital(c) then (c as int + 32) as char else c
  }

  /** Upper-case mapping of ASCII and Latin-1 small letters: `µ` and `ÿ` leave
      Latin-1, and `ß`, whose capital is two letters, is left as it is. */
  function UpperChar(c: char): char {
    if 'a' <= c <= 'z' || ('\U{E0}' <= c <= '\U{FE}' && c != '\U{F7}') then
      (c as int - 32) as char
    else if c == '\U{B5}' then '\U{039C}'
    else if c == '\U{FF}' then '\U{0178}'
    else c
  }

  /** Python's `str.lower()` on the characters `LowerChar` covers: no capital is
      left, every other character is kept, and each capital becomes the small
      letter whose capital it is. */
  function Lower(s: string): (r: string)
    ensures |r| == |s|
    ensures forall i :: 0 <= i < |r| ==> !IsCapital(r[i])
    ensures forall i :: 0 <= i < |s| && !IsCapital(s[i]) ==> r[i] == s[i]
    ensures forall i :: 0 <= i < |s| && IsCapital(s[i]) ==> IsSmall(r[i]) && UpperChar(r[i]) == s[i]
  {
    seq(|s|, i requires 0 <= i < |s| => LowerChar(s[i]))
  }

  /** Python's `str.upper()` on the characters `UpperChar` covers: no small letter
      is left, every other character is kept, and each Latin-1 small letter whose
      capital is in Latin-1 becomes the capital it is the small letter of. */
  function Upper(s: string): (r: string)
    ensures |r| == |s|
    ensures forall i :: 0 <= i < |r| ==> !IsSmall(r[i])
    ensures forall i :: 0 <= i < |s| && !IsSmall(s[i]) ==> r[i] == s[i]
    ensures forall i :: 0 <= i < |s| && IsSmall(s[i]) && s[i] != '\U{B5}' && s[i] != '\U{FF}' ==>
      IsCapital(r[i]) && LowerChar(r[i]) == s[i]
  {
    seq(|s|, i requires 0 <= i < |s| => UpperChar(s[i]))
  }

  /** Lower-casing twice is lower-casing once. */
  lemma LowerIdempotent(s: string)
    ensures Lower(Lower(s)) == Lower(s)
  {
  }

  /** Upper-casing twice is upper-casing once. */
  lemma UpperIdempotent(s: string)
    ensures Upper(Upper(s)) == Upper(s)
  {
  }

  /** A text without small letters is its own upper case, and a text without
      capitals its own lower case. */
  lemma CaseFixedPoints(s: string)
    ensures (forall i :: 0 <= i < |s| ==> !IsSmall(s[i])) ==> Upper(s) == s
    ensures (forall i :: 0 <= i < |s| ==> !IsCapital(s[i])) ==> Lower(s) == s
  {
  }

  /** Case mapping commutes with taking a slice, so a word that occurs in a line
      occurs, mapped, in the mapped line. This is what makes `"RAFAEL" in
      line.upper()` hold for `Rafael` and `"final" in line.lower()` for `FINAL`. */
  lemma CaseMapsOccurrence(line: string, w: string)
    requires Contains(line, w)
    ensures Contains(Upper(line), Upper(w)) && Contains(Lower(line), Lower(w))
  {
    var k :| OccursAt(line, w, k);
    CaseMapsSlice(line, k, k + |w|);
    assert OccursAt(Upper(line), Upper(w), k) && OccursAt(Lower(line), Lower(w), k);
  }

  /** The case mapping of a slice is the slice of the case mapping. */
  lemma CaseMapsSlice(s: string, a: nat, b: nat)
    requires a <= b <= |s|
    ensures Upper(s)[a..b] == Upper(s[a..b]) && Lower(s)[a..b] == Lower(s[a..b])
  {
  }

  /** Index of the first `c` in `s`, if any. */
  function IndexOf(s: string, c: char): (r: nat)
    ensures r <= |s|
    ensures forall j :: 0 <= j < r ==> s[j] != c
    ensures r < |s| ==> s[r] == c
  {
    if |s| == 0 || s[0] == c then 0 else 1 + IndexOf(s[1..], c)
  }

  /** Python's `s.split(c)` for a one-character separator: the pieces between the
      separators, always at least one. */
  function Split(s: string, c: char): (r: seq<string>)
    ensures |r| >= 1
    ensures forall j :: 0 <= j < |r| ==> c !in r[j]
    decreases |s|
  {
    var k := IndexOf(s, c);
    if k == |s| then
      [s]
    else
      [s[..k]] + Split(s[k + 1..], c)
  }

  /** Python's `c.join(pieces)`. */
  function Join(pieces: seq<string>, c: char): string
    requires |pieces| >= 1
  {
    if |pieces| == 1 then pieces[0] else pieces[0] + [c] + Join(pieces[1..], c)
  }

  /** Splitting and joining again gives back the original text. */
  lemma {:induction false} JoinSplit(s: string, c: char)
    ensures Join(Split(s, c), c) == s
    decreases |s|
  {
    var k := IndexOf(s, c);
    if k < |s| {
      var pieces := [s[..k]] + Split(s[k + 1..], c);
      assert Split(s, c) == pieces;
      assert pieces[1..] == Split(s[k + 1..], c);
      JoinSplit(s[k + 1..], c);
      assert Join(pieces, c) == s[..k] + [c] + s[k + 1..];
      assert s == s[..k] + [c] + s[k + 1..];
    }
  }

  /** The first separator of `p + [c] + rest` is the one after `p`. */
  lemma IndexOfAfterPiece(p: string, c: char, rest: string)
    requires c !in p
    ensures IndexOf(p + [c] + rest, c) == |p|
  {
    var s := p + [c] + rest;
    assert forall j :: 0 <= j < |p| ==> s[j] == p[j] && p[j] in p;
    assert s[|p|] == c;
  }

  /** Splitting a join of separator-free pieces gives back the pieces. */
  lemma {:induction false} SplitJoin(pieces: seq<string>, c: char)
    requires |pieces| >= 1
    requires forall j :: 0 <= j < |pieces| ==> c !in pieces[j]
    ensures Split(Join(pieces, c), c) == pieces
    decreases |pieces|
  {
    var p := pieces[0];
    if |pieces| == 1 {
      assert forall j :: 0 <= j < |p| ==> p[j] in p && p[j] != c;
      assert IndexOf(p, c) == |p|;
      assert pieces == [p];
    } else {
      var rest := Join(pieces[1..], c);
      var s := p + [c] + rest;
      assert Join(pieces, c) == s;
      IndexOfAfterPiece(p, c, rest);
      assert s[..|p|] == p;
      assert s[|p| + 1..] == rest;
      SplitJoin(pieces[1..], c);
      assert pieces == [p] + pieces[1..];
    }
  }
}
