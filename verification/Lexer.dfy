/** The lexer of core/expression.py: an ordered list of alternatives, each matched greedily,
    the first that matches deciding the token. */
module Lexer {
  import opened Text

  /** An operator or punctuation mark. */
  type Mark = t: string | t != "" && (forall i :: 0 <= i < |t| ==> !IsSpace(t[i])) && '"' !in t && '\'' !in t witness "$"

  /** The alternatives of the token pattern; `Fixed` stands for one literal operator or mark. */
  datatype Alternative =
    | NegDecimal | NegInteger | Decimal | Integer
    | Quoted(quote: char)
    | Fixed(text: Mark)
    | Word

  /** The alternatives in the order in which the pattern lists them. */
  const ALTERNATIVES: seq<Alternative> := [
    NegDecimal, NegInteger, Decimal, Integer,
    Quoted('"'), Quoted('\''),
    Fixed("=="), Fixed("!="), Fixed(">="), Fixed("<="), Fixed("&&"), Fixed("||"),
    Fixed("!"), Fixed(">"), Fixed("<"),
    Fixed("("), Fixed(")"), Fixed(","), Fixed("."), Fixed("$"),
    Word
  ]

  // ---------- What each alternative means: a language of strings ----------

  predicate IsDecimalAt(t: string, i: int) {
    0 < i < |t| - 1 && t[i] == '.' && AllDigits(t[..i]) && AllDigits(t[i + 1..])
  }

  /** `\d+\.\d+` */
  predicate IsDecimal(t: string) {
    exists i :: 0 <= i < |t| && IsDecimalAt(t, i)
  }

  /** A quoted string in which the quote occurs at the two ends only. */
  predicate IsQuoted(t: string, q: char) {
    |t| >= 2 && t[0] == q && t[|t| - 1] == q && q !in t[1..|t| - 1]
  }

  predicate InLanguage(a: Alternative, t: string) {
    match a
    case NegDecimal => t != "" && t[0] == '-' && IsDecimal(t[1..])
    case NegInteger => t != "" && t[0] == '-' && AllDigits(t[1..])
    case Decimal => IsDecimal(t)
    case Integer => AllDigits(t)
    case Quoted(q) => IsQuoted(t, q)
    case Fixed(w) => t == w
    case Word => t != "" && All(t, IsWordChar)
  }

  // ---------- How each alternative is matched ----------

  function DecimalLength(s: string): (k: nat)
    ensures k <= |s|
  {
    var n := Span(s, IsDigit);
    if n == 0 || n == |s| || s[n] != '.' then 0 else
    var m := Span(s[n + 1..], IsDigit);
    if m == 0 then 0 else n + 1 + m
  }

  /** The length matched by one alternative at the start of `s`; 0 when it does not match. */
  function MatchLength(a: Alternative, s: string): (k: nat)
    ensures k <= |s|
  {
    match a
    case NegDecimal =>
      if s == "" || s[0] != '-' then 0 else
      var k := DecimalLength(s[1..]);
      if k == 0 then 0 else 1 + k
    case NegInteger =>
      if s == "" || s[0] != '-' then 0 else
      var k := Span(s[1..], IsDigit);
      if k == 0 then 0 else 1 + k
    case Decimal => DecimalLength(s)
    case Integer => Span(s, IsDigit)
    case Quoted(q) =>
      if s == "" || s[0] != q then 0 else
      var k := Span(s[1..], c => c != q);
      if 1 + k == |s| then 0 else k + 2
    case Fixed(w) => if w <= s then |w| else 0
    case Word => Span(s, IsWordChar)
  }

  /** The match of the first alternative, in order from the `i`-th, that matches at all. */
  function FirstMatch(i: nat, s: string): (k: nat)
    requires i <= |ALTERNATIVES|
    ensures k <= |s|
    decreases |ALTERNATIVES| - i, s
  {
    if i == |ALTERNATIVES| then 0
    else if MatchLength(ALTERNATIVES[i], s) > 0 then MatchLength(ALTERNATIVES[i], s)
    else FirstMatch(i + 1, s)
  }

  /** The length of the token at the start of `s`; 0 when no alternative matches. */
  function Munch(s: string): (k: nat)
    ensures k <= |s|
  {
    FirstMatch(0, s)
  }

  /** The token sequence of a whole expression; `None` is the "unrecognized token" error. */
  function Lex(s: string): Option<seq<string>> {
    if s == "" then Some([])
    else if IsSpace(s[0]) then Lex(s[1..])
    else
      var k := Munch(s);
      if k == 0 then None else
      var rest :- Lex(s[k..]);
      Some([s[..k]] + rest)
  }

  /** The source's loop, reading from a position and growing the token list. */
  method Tokenize(expr: string) returns (r: Option<seq<string>>)
    ensures r == Lex(expr)
  {
    hide Munch, IsSpace;
    var tokens: seq<string> := [];
    var pos := 0;
    assert expr[pos..] == expr;
    assert Lex(expr).Some? ==> [] + Lex(expr).value == Lex(expr).value;
    while pos < |expr|
      invariant 0 <= pos <= |expr|
      invariant Lex(expr) == Prepend(tokens, Lex(expr[pos..]))
    {
      ghost var here := expr[pos..];
      if IsSpace(expr[pos]) {
        assert here[1..] == expr[pos + 1..];
        pos := pos + 1;
        continue;
      }
      var k := Munch(expr[pos..]);
      if k == 0 {
        return None;
      }
      assert here[k..] == expr[pos + k..];
      assert here[..k] == expr[pos..pos + k];
      PrependTwice(tokens, here[..k], Lex(here[k..]));
      tokens := tokens + [expr[pos..pos + k]];
      pos := pos + k;
    }
    assert expr[pos..] == "" && tokens + [] == tokens;
    return Some(tokens);
  }

  function Prepend(tokens: seq<string>, r: Option<seq<string>>): Option<seq<string>> {
    match r
    case None => None
    case Some(ts) => Some(tokens + ts)
  }

  lemma PrependTwice(tokens: seq<string>, t: string, r: Option<seq<string>>)
    ensures Prepend(tokens + [t], r) == Prepend(tokens, Prepend([t], r))
  {
    if r.Some? {
      assert tokens + [t] + r.value == tokens + ([t] + r.value);
    }
  }

  // ---------- The matcher finds the longest word of the alternative's language ----------

  /** `k` is the length of the longest prefix of `s` in the language of `a`, or 0 if there is none. */
  ghost predicate IsLongestMatch(a: Alternative, s: string, k: nat) {
    && k <= |s|
    && (k > 0 ==> InLanguage(a, s[..k]))
    && (forall j :: k < j <= |s| ==> !InLanguage(a, s[..j]))
  }

  lemma AllDigitsOfPrefix(s: string, j: nat)
    requires j <= |s|
    ensures AllDigits(s[..j]) <==> 0 < j <= Span(s, IsDigit)
  {
    var n := Span(s, IsDigit);
    if n < j {
      assert s[..j][n] == s[n];
    }
  }

  lemma DecimalLengthIsLongest(s: string)
    ensures IsLongestMatch(Decimal, s, DecimalLength(s))
  {
    var n, k := Span(s, IsDigit), DecimalLength(s);
    forall j, i | 0 < j <= |s| && IsDecimalAt(s[..j], i)
      ensures i == n && k > 0 && j <= k
    {
      assert s[..j][..i] == s[..i];
      assert s[..j][i + 1..] == s[i + 1..][..j - i - 1];
      AllDigitsOfPrefix(s, i);
      assert s[i] == '.';
      AllDigitsOfPrefix(s[i + 1..], j - i - 1);
    }
    if k > 0 {
      assert s[..k][..n] == s[..n];
      assert s[..k][n + 1..] == s[n + 1..][..k - n - 1];
      AllDigitsOfPrefix(s, n);
      AllDigitsOfPrefix(s[n + 1..], k - n - 1);
      assert IsDecimalAt(s[..k], n);
    }
  }

  lemma QuotedPrefix(q: char, s: string, j: nat)
    requires s != "" && s[0] == q && 2 <= j <= |s| && IsQuoted(s[..j], q)
    ensures Span(s[1..], c => c != q) == j - 2
  {
    var t := s[..j];
    forall i | 0 <= i < j - 2 ensures s[1..][i] != q {
      assert t[1..j - 1][i] == s[1..][i];
    }
    assert s[1..][j - 2] == t[j - 1];
    SpanIs(s[1..], c => c != q, j - 2);
  }

  lemma QuotedIsLongest(q: char, s: string)
    ensures IsLongestMatch(Quoted(q), s, MatchLength(Quoted(q), s))
  {
    var k := MatchLength(Quoted(q), s);
    forall j | k < j <= |s| ensures !IsQuoted(s[..j], q) {
      if IsQuoted(s[..j], q) {
        assert s[..j][0] == s[0];
        QuotedPrefix(q, s, j);
      }
    }
    if k > 0 {
      var n := k - 2;
      assert s[..k][1..k - 1] == s[1..][..n];
      assert s[..k][k - 1] == s[1..][n];
    }
  }

  lemma WordIsLongest(s: string)
    ensures IsLongestMatch(Word, s, MatchLength(Word, s))
  {
    var k := MatchLength(Word, s);
    forall j | k < j <= |s| ensures !All(s[..j], IsWordChar) {
      assert s[..j][k] == s[k];
    }
  }

  /** Greedy matching of every alternative returns the longest member of its language. */
  lemma MatchLengthIsLongest(a: Alternative, s: string)
    ensures IsLongestMatch(a, s, MatchLength(a, s))
  {
    var k := MatchLength(a, s);
    match a
    case NegDecimal =>
      if s != "" {
        DecimalLengthIsLongest(s[1..]);
        forall j | 0 < j <= |s| ensures s[..j][1..] == s[1..][..j - 1] {}
      }
    case NegInteger =>
      if s != "" {
        forall j | 0 < j <= |s| ensures s[..j][1..] == s[1..][..j - 1] {}
        forall j | 0 <= j < |s| { AllDigitsOfPrefix(s[1..], j); }
      }
    case Decimal => DecimalLengthIsLongest(s);
    case Integer => forall j | 0 <= j <= |s| { AllDigitsOfPrefix(s, j); }
    case Quoted(q) => QuotedIsLongest(q, s);
    case Fixed(w) =>
      assert forall j :: 0 < j <= |s| && s[..j] == w ==> w <= s && j == |w|;
    case Word => WordIsLongest(s);
  }

  /** The token rule of an ordered, greedy alternation: `Munch` answers `k` exactly when `k` is the
      longest match of some alternative and no alternative before it matches any prefix. */
  ghost predicate DecidedBy(s: string, k: nat, i: nat) {
    && i < |ALTERNATIVES|
    && k > 0
    && IsLongestMatch(ALTERNATIVES[i], s, k)
    && forall b :: 0 <= b < i ==> IsLongestMatch(ALTERNATIVES[b], s, 0)
  }

  lemma LongestIsMatched(a: Alternative, s: string)
    requires IsLongestMatch(a, s, MatchLength(a, s))
    ensures MatchLength(a, s) <= |s|
  {
  }

  lemma {:induction false} FirstMatchDecides(i: nat, s: string)
    requires i <= |ALTERNATIVES|
    requires forall b :: 0 <= b < i ==> IsLongestMatch(ALTERNATIVES[b], s, 0)
    ensures FirstMatch(i, s) > 0 ==> exists d: nat :: DecidedBy(s, FirstMatch(i, s), d)
    ensures FirstMatch(i, s) == 0 ==> forall b :: 0 <= b < |ALTERNATIVES| ==> IsLongestMatch(ALTERNATIVES[b], s, 0)
    decreases |ALTERNATIVES| - i
  {
    hide MatchLength, IsLongestMatch;
    if i < |ALTERNATIVES| {
      MatchLengthIsLongest(ALTERNATIVES[i], s);
      if MatchLength(ALTERNATIVES[i], s) > 0 {
        LongestIsMatched(ALTERNATIVES[i], s);
        assert DecidedBy(s, FirstMatch(i, s), i);
      } else {
        FirstMatchDecides(i + 1, s);
      }
    }
  }

  lemma MunchIsFirstLongestMatch(s: string, k: nat)
    requires k > 0
    ensures Munch(s) == k <==> exists i: nat :: DecidedBy(s, k, i)
  {
    FirstMatchDecides(0, s);
    forall i: nat | DecidedBy(s, k, i)
      ensures Munch(s) == k
    {
      DecisionIsUnique(s, 0, k, i);
    }
  }

  lemma {:induction false} DecisionIsUnique(s: string, from: nat, k: nat, i: nat)
    requires DecidedBy(s, k, i) && from <= i
    ensures FirstMatch(from, s) == k
    decreases i - from
  {
    MatchLengthIsLongest(ALTERNATIVES[from], s);
    if from < i {
      DecisionIsUnique(s, from + 1, k, i);
    }
  }

  // ---------- Lexemes: strings that are exactly one token ----------

  /** `t` is one whole token. */
  predicate IsLexeme(t: string) {
    t != "" && !IsSpace(t[0]) && Munch(t) == |t|
  }

  /** Every token the lexer cuts off is itself a lexeme. */
  lemma MunchYieldsLexeme(s: string)
    requires s != "" && !IsSpace(s[0]) && Munch(s) > 0
    ensures IsLexeme(s[..Munch(s)])
  {
    var k := Munch(s);
    var t := s[..k];
    MunchIsFirstLongestMatch(s, k);
    var i: nat :| DecidedBy(s, k, i);
    forall j | 0 <= j <= k ensures t[..j] == s[..j] {}
    assert IsLongestMatch(ALTERNATIVES[i], t, k);
    forall b | 0 <= b < i ensures IsLongestMatch(ALTERNATIVES[b], t, 0) {
      assert IsLongestMatch(ALTERNATIVES[b], s, 0);
    }
    assert DecidedBy(t, k, i);
    MunchIsFirstLongestMatch(t, k);
  }

  lemma {:induction false} LexYieldsLexemes(s: string)
    ensures Lex(s).Some? ==> forall i :: 0 <= i < |Lex(s).value| ==> IsLexeme(Lex(s).value[i])
    decreases |s|
  {
    if s != "" {
      if IsSpace(s[0]) {
        LexYieldsLexemes(s[1..]);
      } else if Munch(s) > 0 {
        MunchYieldsLexeme(s);
        LexYieldsLexemes(s[Munch(s)..]);
      }
    }
  }

  // ---------- Re-lexing separated lexemes ----------

  /** What may follow a lexeme without changing how it is cut off: nothing, or white space. */
  predicate Separated(rest: string) {
    rest == "" || IsSpace(rest[0])
  }

  lemma DecimalLengthAppend(t: string, rest: string)
    requires Separated(rest)
    ensures DecimalLength(t + rest) == DecimalLength(t)
  {
    var n := Span(t, IsDigit);
    SpanAppend(t, rest, IsDigit);
    if n < |t| {
      assert (t + rest)[n + 1..] == t[n + 1..] + rest;
      SpanAppend(t[n + 1..], rest, IsDigit);
    }
  }

  lemma PrefixBeforeSpace(w: Mark, t: string, rest: string)
    requires Separated(rest)
    ensures w <= t + rest <==> w <= t
  {
    assert rest == "" || (t + rest)[|t|] == rest[0];
    assert w <= t + rest ==> forall i :: 0 <= i < |w| ==> w[i] == (t + rest)[i];
  }

  /** Appending separated text changes no alternative's match, except that an unclosed quotation
      might find its end there. */
  lemma MatchLengthAppend(a: Alternative, t: string, rest: string)
    requires t != "" && Separated(rest) && a in ALTERNATIVES
    requires a.Quoted? && t[0] == a.quote ==> MatchLength(a, t) > 0
    ensures MatchLength(a, t + rest) == MatchLength(a, t)
  {
    assert (t + rest)[1..] == t[1..] + rest;
    match a
    case NegDecimal => DecimalLengthAppend(t[1..], rest);
    case NegInteger => SpanAppend(t[1..], rest, IsDigit);
    case Decimal => DecimalLengthAppend(t, rest);
    case Integer => SpanAppend(t, rest, IsDigit);
    case Quoted(q) =>
      if t[0] == q {
        SpanIs(t[1..] + rest, c => c != q, Span(t[1..], c => c != q));
      }
    case Fixed(w) =>
      PrefixBeforeSpace(w, t, rest);
    case Word => SpanAppend(t, rest, IsWordChar);
  }

  lemma {:induction false} FirstMatchAppend(i: nat, t: string, rest: string)
    requires i <= |ALTERNATIVES| && t != "" && Separated(rest)
    requires forall a :: a in ALTERNATIVES && a.Quoted? && t[0] == a.quote ==> MatchLength(a, t) > 0
    ensures FirstMatch(i, t + rest) == FirstMatch(i, t)
    decreases |ALTERNATIVES| - i
  {
    if i < |ALTERNATIVES| {
      MatchLengthAppend(ALTERNATIVES[i], t, rest);
      FirstMatchAppend(i + 1, t, rest);
    }
  }

  /** Only the two quoted alternatives can match text that starts with a quote. */
  lemma LexemeQuotes(t: string)
    requires IsLexeme(t)
    ensures forall a :: a in ALTERNATIVES && a.Quoted? && t[0] == a.quote ==> MatchLength(a, t) > 0
  {
    hide MatchLength;
    MunchIsFirstLongestMatch(t, |t|);
    var i: nat :| DecidedBy(t, |t|, i);
    assert t[..|t|] == t;
    QuoteStart(ALTERNATIVES[i], t);
    forall a | a in ALTERNATIVES && a.Quoted? && t[0] == a.quote
      ensures MatchLength(a, t) > 0
    {
      MatchLengthIsLongest(a, t);
    }
  }

  /** A word of any alternative's language that starts with a quote is a quotation. */
  lemma QuoteStart(a: Alternative, t: string)
    requires a in ALTERNATIVES && InLanguage(a, t)
    ensures t[0] == '"' || t[0] == '\'' ==> a == Quoted(t[0])
  {
    if a.Decimal? {
      var i :| 0 <= i < |t| && IsDecimalAt(t, i);
      assert t[..i][0] == t[0];
    } else if a.Fixed? {
      assert t[0] in a.text;
    }
  }

  lemma LexemeMunch(t: string, rest: string)
    requires IsLexeme(t) && Separated(rest)
    ensures Munch(t + rest) == |t|
  {
    LexemeQuotes(t);
    FirstMatchAppend(0, t, rest);
  }

  /** One step of the lexer on text whose first token is known. */
  lemma LexStep(t: string, rest: string)
    requires t != "" && !IsSpace(t[0]) && Munch(t + rest) == |t|
    ensures Lex(t + rest) == Prepend([t], Lex(rest))
  {
    assert (t + rest)[..|t|] == t;
    assert (t + rest)[|t|..] == rest;
  }

  predicate AllWhitespace(gap: string) {
    forall i :: 0 <= i < |gap| ==> gap[i] in WHITESPACE
  }

  /** The tokens with a gap before each and one after the last. */
  function Spread(tokens: seq<string>, gaps: seq<string>): string
    requires |gaps| == |tokens| + 1
  {
    if tokens == [] then gaps[0] else gaps[0] + (tokens[0] + Spread(tokens[1..], gaps[1..]))
  }

  /** White space, and between two tokens at least some. */
  predicate Separates(gaps: seq<string>) {
    && (forall i :: 0 <= i < |gaps| ==> AllWhitespace(gaps[i]))
    && (forall i :: 0 < i < |gaps| - 1 ==> gaps[i] != "")
  }

  /** White space before a text is skipped. */
  lemma {:induction false} LexSkips(gap: string, rest: string)
    requires AllWhitespace(gap)
    ensures Lex(gap + rest) == Lex(rest)
  {
    if gap == "" {
      assert gap + rest == rest;
    } else {
      SpaceIsListed(gap[0]);
      assert (gap + rest)[0] == gap[0] && (gap + rest)[1..] == gap[1..] + rest;
      LexSkips(gap[1..], rest);
    }
  }

  lemma SpreadStarts(tokens: seq<string>, gaps: seq<string>)
    requires |gaps| == |tokens| + 1 && AllWhitespace(gaps[0]) && (tokens == [] || gaps[0] != "")
    ensures Separated(Spread(tokens, gaps))
  {
    if gaps[0] != "" {
      SpaceIsListed(gaps[0][0]);
    }
  }

  /** Tokens lex to themselves, however much white space of whatever kind stands around them. */
  lemma {:induction false} LexSpread(tokens: seq<string>, gaps: seq<string>)
    requires |gaps| == |tokens| + 1 && Separates(gaps)
    requires forall i :: 0 <= i < |tokens| ==> IsLexeme(tokens[i])
    ensures Lex(Spread(tokens, gaps)) == Some(tokens)
    decreases |tokens|
  {
    if tokens == [] {
      assert gaps[0] + "" == gaps[0];
      LexSkips(gaps[0], "");
    } else {
      hide IsSpace, AllWhitespace, IsLexeme;
      var rest := Spread(tokens[1..], gaps[1..]);
      assert gaps[1..][0] == gaps[1] && (tokens[1..] == [] || gaps[1] != "");
      SpreadStarts(tokens[1..], gaps[1..]);
      LexSkips(gaps[0], tokens[0] + rest);
      LexemeLexes(tokens[0], rest);
      SeparatesRest(gaps);
      LexSpread(tokens[1..], gaps[1..]);
      assert [tokens[0]] + tokens[1..] == tokens;
    }
  }

  lemma LexemeLexes(t: string, rest: string)
    requires IsLexeme(t) && Separated(rest)
    ensures Lex(t + rest) == Prepend([t], Lex(rest))
  {
    LexemeMunch(t, rest);
    LexStep(t, rest);
  }

  lemma SeparatesRest(gaps: seq<string>)
    requires |gaps| >= 1 && Separates(gaps)
    ensures Separates(gaps[1..])
  {
    hide AllWhitespace;
  }

  /** One blank between two tokens is the least. */
  function Blanks(n: nat): (gaps: seq<string>)
    ensures |gaps| == n + 1
  {
    [""] + seq(n, i => if i < n - 1 then " " else "")
  }

  lemma {:induction false} JoinIsSpread(tokens: seq<string>)
    ensures Separates(Blanks(|tokens|)) && Spread(tokens, Blanks(|tokens|)) == Join(tokens, " ")
    decreases |tokens|
  {
    assert AllWhitespace("") && AllWhitespace(" ") by { assert ' ' == WHITESPACE[9]; }
    if |tokens| == 1 {
      assert Blanks(1) == ["", ""];
      assert Blanks(1)[1..] == [""];
      assert "" + (tokens[0] + "") == tokens[0];
    } else if tokens != [] {
      var n := |tokens|;
      JoinIsSpread(tokens[1..]);
      assert Blanks(n)[1..] == [" "] + Blanks(n - 1)[1..];
      assert Spread(tokens[1..], Blanks(n)[1..]) == " " + Spread(tokens[1..], Blanks(n - 1)) by {
        SpreadFirst(tokens[1..], " ", Blanks(n - 1));
      }
      assert "" + (tokens[0] + (" " + Join(tokens[1..], " "))) == tokens[0] + " " + Join(tokens[1..], " ");
    }
  }

  /** More white space in front. */
  lemma SpreadFirst(tokens: seq<string>, gap: string, gaps: seq<string>)
    requires |gaps| == |tokens| + 1 && gaps[0] == ""
    ensures Spread(tokens, [gap] + gaps[1..]) == gap + Spread(tokens, gaps)
  {
    assert ([gap] + gaps[1..])[1..] == gaps[1..];
    if tokens == [] {
      assert gap + "" == gap;
    } else {
      assert "" + (tokens[0] + Spread(tokens[1..], gaps[1..])) == tokens[0] + Spread(tokens[1..], gaps[1..]);
    }
  }

  /** Joining lexemes with blanks and lexing again gives the same tokens back. */
  lemma LexJoin(tokens: seq<string>)
    requires forall i :: 0 <= i < |tokens| ==> IsLexeme(tokens[i])
    ensures Lex(Join(tokens, " ")) == Some(tokens)
  {
    JoinIsSpread(tokens);
    LexSpread(tokens, Blanks(|tokens|));
  }

  /** Lexing is a normal form: rewriting any accepted text as its tokens separated by single
      blanks does not change its tokens. */
  lemma LexNormalForm(s: string)
    requires Lex(s).Some?
    ensures Lex(Join(Lex(s).value, " ")) == Lex(s)
  {
    LexYieldsLexemes(s);
    LexJoin(Lex(s).value);
  }
}
