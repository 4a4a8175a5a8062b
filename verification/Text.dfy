/** Strings as Python's `str` operations see them, over ASCII: character classes,
    decimal text, stripping, joining and substring search. */
module Text {

  datatype Option<+T> = None | Some(value: T) {
    predicate IsFailure() { None? }

    function PropagateFailure<U>(): Option<U>
      requires None?
    {
      None
    }

    function Extract(): T
      requires Some?
    {
      value
    }
  }

  // ---------- Character classes ----------

  predicate IsDigit(c: char) {
    '0' <= c <= '9'
  }

  predicate IsLetter(c: char) {
    'a' <= c <= 'z' || 'A' <= c <= 'Z'
  }

  predicate IsIdentStart(c: char) {
    IsLetter(c) || c == '_'
  }

  predicate IsWordChar(c: char) {
    IsIdentStart(c) || IsDigit(c)
  }

  /** `str.isspace` on ASCII: tab to carriage return, the four separators 28-31, and the blank. */
  predicate IsSpace(c: char) {
    9 <= c as int <= 13 || 28 <= c as int <= 32
  }

  // The same classes as lists of characters.
  const WHITESPACE: string :=
    ['\t', '\n', 11 as char, 12 as char, '\r', 28 as char, 29 as char, 30 as char, 31 as char, ' ']
  const DIGITS: string := "0123456789"
  const LOWER_CASE: string := "abcdefghijklmnopqrstuvwxyz"
  const UPPER_CASE: string := "ABCDEFGHIJKLMNOPQRSTUVWXYZ"

  lemma SpaceIsListed(c: char)
    ensures IsSpace(c) <==> c in WHITESPACE
  {
    if IsSpace(c) {
      var n := c as int;
      assert c == WHITESPACE[if n <= 13 then n - 9 else n - 23];
    }
  }

  lemma DigitIsListed(c: char)
    ensures IsDigit(c) <==> c in DIGITS
    ensures IsDigit(c) ==> DIGITS[DigitValue(c)] == c
  {
    if IsDigit(c) {
      assert c == DIGITS[c as int - '0' as int];
    }
  }

  lemma LowerIsListed(c: char)
    ensures 'a' <= c <= 'z' <==> c in LOWER_CASE
  {
    assert forall i :: 0 <= i < 26 ==> 'a' <= LOWER_CASE[i] <= 'z';
    if 'a' <= c <= 'z' {
      assert c == LOWER_CASE[c as int - 'a' as int];
    }
  }

  lemma UpperIsListed(c: char)
    ensures 'A' <= c <= 'Z' <==> c in UPPER_CASE
  {
    assert forall i :: 0 <= i < 26 ==> 'A' <= UPPER_CASE[i] <= 'Z';
    if 'A' <= c <= 'Z' {
      assert c == UPPER_CASE[c as int - 'A' as int];
    }
  }

  /** The character classes of the tokens, each as the list of its members. */
  lemma ClassesAreListed(c: char)
    ensures IsSpace(c) <==> c in WHITESPACE
    ensures IsDigit(c) <==> c in DIGITS
    ensures IsIdentStart(c) <==> c in LOWER_CASE || c in UPPER_CASE || c == '_'
    ensures IsWordChar(c) <==> c in LOWER_CASE || c in UPPER_CASE || c == '_' || c in DIGITS
  {
    SpaceIsListed(c);
    DigitIsListed(c);
    LowerIsListed(c);
    UpperIsListed(c);
    hide LOWER_CASE, UPPER_CASE, DIGITS, WHITESPACE;
  }

  predicate All(s: string, p: char -> bool) {
    forall i :: 0 <= i < |s| ==> p(s[i])
  }

  /** The first `n` characters of `s` all satisfy `p`. */
  predicate Prefix(s: string, n: nat, p: char -> bool)
    requires n <= |s|
  {
    forall i :: 0 <= i < n ==> p(s[i])
  }

  /** The length of the longest prefix of `s` whose characters all satisfy `p`. */
  function Span(s: string, p: char -> bool): (n: nat)
    ensures n <= |s|
    ensures Prefix(s, n, p)
    ensures n < |s| ==> !p(s[n])
  {
    if s == "" || !p(s[0]) then
      0
    else
      var n := Span(s[1..], p);
      assert forall i :: 0 < i < n + 1 ==> s[i] == s[1..][i - 1];
      n + 1
  }

  lemma {:induction false} SpanIs(s: string, p: char -> bool, n: nat)
    requires n <= |s| && Prefix(s, n, p)
    requires n < |s| ==> !p(s[n])
    ensures Span(s, p) == n
  {
    var m := Span(s, p);
    assert m < |s| ==> !p(s[m]);
  }

  /** Appending text that `p` rejects at its start leaves the span unchanged. */
  lemma {:induction false} SpanAppend(s: string, rest: string, p: char -> bool)
    requires rest == "" || !p(rest[0])
    ensures Span(s + rest, p) == Span(s, p)
  {
    SpanIs(s + rest, p, Span(s, p));
  }

  // ---------- Decimal text of integers ----------

  function DigitChar(d: nat): (c: char)
    requires d < 10
    ensures IsDigit(c) && DigitValue(c) == d
  {
    '0' + d as char
  }

  function DigitValue(c: char): (d: nat)
    requires IsDigit(c)
    ensures d < 10
  {
    c as int - '0' as int
  }

  predicate AllDigits(s: string) {
    s != "" && All(s, IsDigit)
  }

  function NatText(n: nat): (s: string)
    ensures AllDigits(s)
  {
    if n < 10 then [DigitChar(n)] else NatText(n / 10) + [DigitChar(n % 10)]
  }

  function NatValue(s: string): (n: int)
    requires All(s, IsDigit)
    ensures n >= 0
  {
    if s == "" then 0 else
    assert All(s[..|s| - 1], IsDigit);
    10 * NatValue(s[..|s| - 1]) + DigitValue(s[|s| - 1])
  }

  /** Python's `str(n)`. */
  function IntText(n: int): (s: string)
    ensures s != ""
  {
    if n < 0 then "-" + NatText(-n) else NatText(n)
  }

  predicate IsIntText(s: string) {
    AllDigits(s) || (|s| > 1 && s[0] == '-' && AllDigits(s[1..]))
  }

  /** Python's `int(s)` on text of the form `-?\d+`. */
  function IntValue(s: string): int
    requires IsIntText(s)
  {
    if s[0] == '-' then -NatValue(s[1..]) else NatValue(s)
  }

  lemma {:induction false} NatTextRoundTrip(n: nat)
    ensures NatValue(NatText(n)) == n
  {
    if n < 10 {
      assert NatText(n)[..0] == "";
    } else {
      NatTextRoundTrip(n / 10);
      var s := NatText(n);
      assert s[..|s| - 1] == NatText(n / 10);
    }
  }

  function Pow10(k: nat): nat {
    if k == 0 then 1 else 10 * Pow10(k - 1)
  }

  /** Digits are read by their places, leading zeros included. */
  lemma {:induction false} NatValueConcat(a: string, b: string)
    requires All(a, IsDigit) && All(b, IsDigit)
    ensures All(a + b, IsDigit) && NatValue(a + b) == NatValue(a) * Pow10(|b|) + NatValue(b)
  {
    if b == "" {
      assert a + b == a;
    } else {
      var front := b[..|b| - 1];
      NatValueConcat(a, front);
      assert (a + b)[..|a + b| - 1] == a + front;
      TimesTen(NatValue(a), Pow10(|front|));
    }
  }

  lemma TimesTen(x: int, p: nat)
    ensures x * (10 * p) == 10 * (x * p)
  {
  }

  /** `int(str(n)) == n` for every integer. */
  lemma IntTextRoundTrip(n: int)
    ensures IsIntText(IntText(n)) && IntValue(IntText(n)) == n
  {
    if n < 0 {
      NatTextRoundTrip(-n);
      assert IntText(n)[1..] == NatText(-n);
    } else {
      NatTextRoundTrip(n);
      assert IsDigit(NatText(n)[0]);
    }
  }

  // ---------- Stripping, joining, searching ----------

  function LStrip(s: string): string {
    s[Span(s, IsSpace)..]
  }

  function RStrip(s: string): string {
    if s == "" || !IsSpace(s[|s| - 1]) then s else RStrip(s[..|s| - 1])
  }

  /** Python's `str.strip()`. */
  function Strip(s: string): string {
    RStrip(LStrip(s))
  }

  function Join(parts: seq<string>, sep: string): string {
    if parts == [] then ""
    else if |parts| == 1 then parts[0]
    else parts[0] + sep + Join(parts[1..], sep)
  }

  /** Python's `needle in text`. */
  predicate Contains(text: string, needle: string) {
    exists i {:trigger OccursAt(text, needle, i)} :: 0 <= i <= |text| && OccursAt(text, needle, i)
  }

  /** A needle is contained exactly when the text is something, the needle, and something. */
  lemma ContainsIff(text: string, needle: string)
    ensures Contains(text, needle) <==> exists a: string, b: string :: text == a + needle + b
  {
    if Contains(text, needle) {
      var i :| 0 <= i <= |text| && OccursAt(text, needle, i);
      assert text == text[..i] + needle + text[i + |needle|..];
    }
    forall a: string, b: string | text == a + needle + b
      ensures Contains(text, needle)
    {
      assert OccursAt(text, needle, |a|);
    }
  }

  lemma {:induction false} RStripSplits(s: string) returns (b: string)
    ensures s == RStrip(s) + b && All(b, IsSpace)
    ensures RStrip(s) == "" || !IsSpace(RStrip(s)[|RStrip(s)| - 1])
  {
    b := "";
    if s != "" && IsSpace(s[|s| - 1]) {
      var front := RStripSplits(s[..|s| - 1]);
      b := front + [s[|s| - 1]];
    }
  }

  /** `strip` takes blanks off both ends, and all of them. */
  lemma StripSplits(s: string) returns (a: string, b: string)
    ensures s == a + Strip(s) + b && All(a, IsSpace) && All(b, IsSpace)
    ensures Strip(s) == "" || (!IsSpace(Strip(s)[0]) && !IsSpace(Strip(s)[|Strip(s)| - 1]))
  {
    a := s[..Span(s, IsSpace)];
    var middle := LStrip(s);
    assert s == a + middle && (middle == "" || !IsSpace(middle[0]));
    b := RStripSplits(middle);
    StripKeepsStart(s);
    assert a + middle == a + Strip(s) + b;
    hide IsSpace, RStrip, LStrip;
  }

  lemma StripKeepsStart(s: string)
    ensures Strip(s) == RStrip(LStrip(s)) && (Strip(s) == "" || Strip(s)[0] == LStrip(s)[0])
  {
    var b := RStripSplits(LStrip(s));
    hide RStrip, IsSpace;
  }

  predicate OccursAt(text: string, needle: string, i: int) {
    0 <= i && i + |needle| <= |text| && text[i..i + |needle|] == needle
  }

  /** ASCII `str.lower()`. */
  function LowerChar(c: char): char {
    if 'A' <= c <= 'Z' then c - 'A' + 'a' else c
  }

  function Lower(s: string): (r: string)
    ensures |r| == |s|
    ensures forall i :: 0 <= i < |s| ==> r[i] == LowerChar(s[i])
  {
    if s == "" then "" else [LowerChar(s[0])] + Lower(s[1..])
  }

  /** The capital letters go to the small ones, one by one, and nothing else changes. */
  lemma LowerLetters(i: nat, c: char)
    ensures i < 26 ==> LowerChar(UPPER_CASE[i]) == LOWER_CASE[i]
    ensures c !in UPPER_CASE ==> LowerChar(c) == c
  {
    UpperIsListed(c);
    assert forall j :: 0 <= j < 26 ==> UPPER_CASE[j] as int == 'A' as int + j && LOWER_CASE[j] as int == 'a' as int + j;
  }
}
