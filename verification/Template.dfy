/** Templates: `render_template` of core/expression.py and the type recovery that `set_context`
    of core/statechart.py applies to a rendered text. */
module Template {
  import opened Text
  import opened Lexer
  import opened Evaluator

  datatype Rendered = Output(s: string) | RenderFailed(error: Error)

  // ---------- Holes ----------

  predicate NotBrace(c: char) {
    c != '}'
  }

  /** A `{{ name }}` hole at the start of `t`: its name, trimmed as the lazy pattern trims it, and its
      length. A hole of blanks only keeps the last blank as its name. */
  function Hole(t: string): (h: Option<(string, nat)>)
    ensures h.Some? ==> 5 <= h.value.1 <= |t| && h.value.0 != ""
  {
    if !("{{" <= t) then None else
    var n := Span(t[2..], NotBrace);
    if n == 0 || n + 4 > |t| || t[n + 2] != '}' || t[n + 3] != '}' then None else
    var content := t[2..n + 2];
    var name := Strip(content);
    Some((if name == "" then content[n - 1..] else name, n + 4))
  }

  /** Python's `s.split(".")`. */
  function SplitDots(s: string): (parts: seq<string>)
    ensures parts != []
    decreases |s|
  {
    var n := Span(s, (c: char) => c != '.');
    if n == |s| then [s] else [s[..n]] + SplitDots(s[n + 1..])
  }

  lemma {:induction false} SplitNone(s: string)
    requires '.' !in s
    ensures SplitDots(s) == [s]
  {
    SpanIs(s, (c: char) => c != '.', |s|);
  }

  lemma {:induction false} SplitFirst(a: string, b: string)
    requires '.' !in a
    ensures SplitDots(a + "." + b) == [a] + SplitDots(b)
  {
    var s := a + "." + b;
    SpanIs(s, (c: char) => c != '.', |a|);
    assert s[..|a|] == a && s[|a| + 1..] == b;
  }

  /** Splitting at dots and joining with dots undo each other. */
  lemma {:induction false} SplitThenJoin(s: string)
    ensures Join(SplitDots(s), ".") == s
    ensures forall i :: 0 <= i < |SplitDots(s)| ==> '.' !in SplitDots(s)[i]
    decreases |s|
  {
    var n := Span(s, (c: char) => c != '.');
    assert '.' !in s[..n];
    if n < |s| {
      var rest := s[n + 1..];
      SplitThenJoin(rest);
      assert s == s[..n] + "." + rest;
      assert SplitDots(s) == [s[..n]] + SplitDots(rest);
      hide SplitDots, Span;
      assert ([s[..n]] + SplitDots(rest))[1..] == SplitDots(rest);
    }
  }

  lemma {:induction false} JoinThenSplit(path: seq<string>)
    requires path != [] && forall i :: 0 <= i < |path| ==> '.' !in path[i]
    ensures SplitDots(Join(path, ".")) == path
    decreases |path|
  {
    if |path| == 1 {
      SplitNone(path[0]);
    } else {
      SplitFirst(path[0], Join(path[1..], "."));
      JoinThenSplit(path[1..]);
      assert [path[0]] + path[1..] == path;
    }
  }

  function ValueText(v: Value, w: World): string {
    match v
    case Null => ""
    case Bool(b) => if b then "true" else "false"
    case Int(n) => IntText(n)
    case Str(s) => s
    case _ => w.text(v)
  }

  function Render(t: string, env: Env, w: World): Rendered
    decreases |t|
  {
    if t == "" then Output("") else
    match Hole(t)
    case None => Prefixed([t[0]], Render(t[1..], env, w))
    case Some((name, n)) =>
      Filled(ResolvePath(env, SplitDots(name), w), Render(t[n..], env, w), w)
  }

  /** A template as a plugin spells it: text, or another kind of value, which Python's `re` refuses. */
  datatype Source = Textual(s: string) | NotText

  function RenderSource(t: Source, env: Env, w: World): Rendered {
    match t
    case Textual(s) => Render(s, env, w)
    case NotText => RenderFailed(Crash)
  }

  function Filled(r: Result, rest: Rendered, w: World): Rendered {
    match r
    case Err(error) => RenderFailed(error)
    case Ok(v) => Prefixed(ValueText(v, w), rest)
  }

  function Prefixed(p: string, r: Rendered): Rendered {
    match r
    case Output(s) => Output(p + s)
    case RenderFailed(_) => r
  }

  // ---------- What a template means ----------

  lemma {:induction false} RStripKeeps(s: string, b: string)
    requires s != "" && !IsSpace(s[|s| - 1]) && All(b, IsSpace)
    ensures RStrip(s + b) == s
  {
    if b == "" {
      assert s + b == s;
    } else {
      assert (s + b)[..|s + b| - 1] == s + b[..|b| - 1];
      RStripKeeps(s, b[..|b| - 1]);
    }
  }

  lemma StripPadded(a: string, s: string, b: string)
    requires All(a, IsSpace) && All(b, IsSpace)
    requires s != "" && !IsSpace(s[0]) && !IsSpace(s[|s| - 1])
    ensures Strip(a + s + b) == s
  {
    SpanIs(a + s + b, IsSpace, |a|);
    assert (a + s + b)[|a|..] == s + b;
    RStripKeeps(s, b);
  }

  /** How the hole pattern reads a padded name between its braces. */
  lemma HolePadded(a: string, name: string, b: string, rest: string)
    requires All(a, IsSpace) && All(b, IsSpace) && All(name, NotBrace)
    requires name != "" && !IsSpace(name[0]) && !IsSpace(name[|name| - 1])
    ensures Hole("{{" + (a + name + b) + "}}" + rest) == Some((name, |a + name + b| + 4))
  {
    hide Strip;
    var content := a + name + b;
    var t := "{{" + content + "}}" + rest;
    assert t[2..] == content + ("}}" + rest);
    assert Prefix(t[2..], |content|, NotBrace);
    SpanIs(t[2..], NotBrace, |content|);
    assert t[2..|content| + 2] == content;
    StripPadded(a, name, b);
  }

  /** `name` is `content` without the blanks around it; of blanks alone the last one is left. */
  ghost predicate IsTrimmed(name: string, content: string) {
    || (name != "" && !IsSpace(name[0]) && !IsSpace(name[|name| - 1])
        && exists a: string, b: string :: All(a, IsSpace) && All(b, IsSpace) && content == a + name + b)
    || (content != "" && All(content, IsSpace) && name == content[|content| - 1..])
  }

  /** What is a hole at the start of a text: two braces, something without a closing brace, two closing braces; and
      nothing else is. */
  lemma HoleIff(t: string, name: string, n: nat)
    ensures Hole(t) == Some((name, n)) ==>
              && 5 <= n <= |t| && '}' !in t[2..n - 2] && t[..n] == "{{" + t[2..n - 2] + "}}"
              && IsTrimmed(name, t[2..n - 2])
    ensures 5 <= n <= |t| && '}' !in t[2..n - 2] && t[..n] == "{{" + t[2..n - 2] + "}}" ==>
              Hole(t).Some? && Hole(t).value.1 == n
  {
    if Hole(t) == Some((name, n)) {
      HoleReads(t);
    }
    if 5 <= n <= |t| && '}' !in t[2..n - 2] && t[..n] == "{{" + t[2..n - 2] + "}}" {
      HoleIsThere(t, t[2..n - 2], n);
    }
    hide Hole, IsTrimmed;
  }

  lemma HoleReads(t: string)
    requires Hole(t).Some?
    ensures var (name, n) := Hole(t).value;
            && '}' !in t[2..n - 2] && t[..n] == "{{" + t[2..n - 2] + "}}" && IsTrimmed(name, t[2..n - 2])
  {
    var n := Hole(t).value.1;
    var content := t[2..n - 2];
    hide Strip, IsTrimmed, IsSpace;
    assert Span(t[2..], NotBrace) == n - 4;
    assert forall i :: 0 <= i < n - 4 ==> content[i] == t[2..][i];
    assert t[n - 2] == '}' && t[n - 1] == '}' && t[..2] == "{{";
    assert t[..n] == t[..2] + content + [t[n - 2], t[n - 1]];
    TrimmedIs(content);
  }

  lemma HoleIsThere(t: string, content: string, n: nat)
    requires 5 <= n <= |t| && content == t[2..n - 2] && '}' !in content && t[..n] == "{{" + content + "}}"
    ensures Hole(t).Some? && Hole(t).value.1 == n
  {
    var w := "{{" + content + "}}";
    assert |content| == n - 4;
    assert w[0] == '{' && w[1] == '{' && w[n - 2] == '}' && w[n - 1] == '}';
    assert t[0] == t[..n][0] && t[1] == t[..n][1] && t[n - 2] == t[..n][n - 2] && t[n - 1] == t[..n][n - 1];
    assert forall i :: 0 <= i < |content| ==> t[2..][i] == content[i];
    SpanIs(t[2..], NotBrace, n - 4);
    hide Strip;
  }

  lemma TrimmedIs(content: string)
    requires content != ""
    ensures var name := Strip(content); IsTrimmed(if name == "" then content[|content| - 1..] else name, content)
  {
    var a, b := StripSplits(content);
    hide IsSpace, Strip;
    if Strip(content) == "" {
      assert content == a + b;
    } else {
      assert content == a + Strip(content) + b;
    }
  }

  /** A padded hole around a trimmed name stands for the text of the value the name resolves to. */
  lemma RenderHole(a: string, name: string, b: string, rest: string, env: Env, w: World)
    requires All(a, IsSpace) && All(b, IsSpace) && All(name, NotBrace)
    requires name != "" && !IsSpace(name[0]) && !IsSpace(name[|name| - 1])
    ensures Render("{{" + (a + name + b) + "}}" + rest, env, w)
         == Filled(ResolvePath(env, SplitDots(name), w), Render(rest, env, w), w)
  {
    hide Hole, ResolvePath, SplitDots, ValueText;
    var content := a + name + b;
    HolePadded(a, name, b, rest);
    assert ("{{" + content + "}}" + rest)[|content| + 4..] == rest;
  }

  lemma PrefixedTwice(p: string, q: string, r: Rendered)
    ensures Prefixed(p, Prefixed(q, r)) == Prefixed(p + q, r)
  {
    assert r.Output? ==> p + (q + r.s) == (p + q) + r.s;
  }

  /** Text without an opening brace stands for itself. */
  lemma {:induction false} RenderPlain(p: string, t: string, env: Env, w: World)
    requires '{' !in p
    ensures Render(p + t, env, w) == Prefixed(p, Render(t, env, w))
  {
    hide ValueText, ResolvePath, SplitDots, Strip;
    if p == "" {
      assert p + t == t;
    } else {
      var s := p + t;
      assert s[0] == p[0] && s[1..] == p[1..] + t;
      assert Hole(s) == None;
      RenderPlain(p[1..], t, env, w);
      PrefixedTwice([p[0]], p[1..], Render(t, env, w));
      assert [p[0]] + p[1..] == p;
    }
  }

  /** A template given as its pieces: plain text and padded holes. */
  datatype Piece = Words(text: string) | Slot(before: string, name: string, after: string)

  predicate GoodPiece(p: Piece) {
    match p
    case Words(text) => '{' !in text
    case Slot(before, name, after) =>
      && AllWhitespace(before) && AllWhitespace(after) && '}' !in name
      && name != "" && name[0] !in WHITESPACE && name[|name| - 1] !in WHITESPACE
  }

  function TemplateText(pieces: seq<Piece>): string {
    if pieces == [] then "" else
    (match pieces[0]
     case Words(text) => text
     case Slot(before, name, after) => "{{" + (before + name + after) + "}}") + TemplateText(pieces[1..])
  }

  /** What a slot stands for: the string itself, nothing for null, the decimal text of an integer, the lower-case
      name of a boolean. */
  ghost predicate StandsFor(v: Value, text: string, w: World) {
    match v
    case Null => text == ""
    case Bool(true) => text == "true"
    case Bool(false) => text == "false"
    case Int(n) => IsIntText(text) && IntValue(text) == n && text == IntText(n)
    case Str(s) => text == s
    case _ => text == w.text(v)
  }

  /** `texts` are what the pieces stand for, one by one. */
  ghost predicate FilledIn(pieces: seq<Piece>, texts: seq<string>, env: Env, w: World) {
    && |texts| == |pieces|
    && forall i :: 0 <= i < |pieces| ==> PieceStandsFor(pieces[i], texts[i], env, w)
  }

  ghost predicate PieceStandsFor(p: Piece, text: string, env: Env, w: World) {
    match p
    case Words(t) => text == t
    case Slot(_, name, _) => ResolvePath(env, SplitDots(name), w).Ok? && StandsFor(ResolvePath(env, SplitDots(name), w).value, text, w)
  }

  lemma ValueStandsFor(v: Value, text: string, w: World)
    requires StandsFor(v, text, w)
    ensures ValueText(v, w) == text
  {
  }

  function Concat(texts: seq<string>): string {
    if texts == [] then "" else texts[0] + Concat(texts[1..])
  }

  lemma {:induction false} SlotTrims(before: string, name: string, after: string)
    requires GoodPiece(Slot(before, name, after))
    ensures All(before, IsSpace) && All(after, IsSpace) && All(name, NotBrace)
    ensures !IsSpace(name[0]) && !IsSpace(name[|name| - 1])
  {
    forall c ensures IsSpace(c) <==> c in WHITESPACE { SpaceIsListed(c); }
    hide IsSpace, WHITESPACE;
  }

  /** Rendering replaces each hole by the text its value stands for and keeps everything else, in order. */
  lemma {:induction false} RenderPieces(pieces: seq<Piece>, texts: seq<string>, env: Env, w: World)
    requires forall i :: 0 <= i < |pieces| ==> GoodPiece(pieces[i])
    requires FilledIn(pieces, texts, env, w)
    ensures Render(TemplateText(pieces), env, w) == Output(Concat(texts))
    decreases |pieces|
  {
    hide GoodPiece, PieceStandsFor, ResolvePath, SplitDots;
    if pieces != [] {
      assert FilledIn(pieces[1..], texts[1..], env, w) by {
        assert forall i :: 0 <= i < |pieces[1..]| ==> pieces[1..][i] == pieces[i + 1] && texts[1..][i] == texts[i + 1];
      }
      RenderPieces(pieces[1..], texts[1..], env, w);
      RenderPiece(pieces[0], texts[0], TemplateText(pieces[1..]), Concat(texts[1..]), env, w);
      hide Render;
      assert TemplateText(pieces) == TemplateText([pieces[0]]) + TemplateText(pieces[1..]) by { TemplateTextOne(pieces[0]); }
    }
  }

  lemma TemplateTextOne(p: Piece)
    ensures TemplateText([p]) == match p case Words(text) => text case Slot(before, name, after) => "{{" + (before + name + after) + "}}"
  {
    assert [p][1..] == [] && TemplateText([]) == "";
  }

  lemma RenderPiece(p: Piece, text: string, rest: string, more: string, env: Env, w: World)
    requires GoodPiece(p) && PieceStandsFor(p, text, env, w) && Render(rest, env, w) == Output(more)
    ensures Render(TemplateText([p]) + rest, env, w) == Output(text + more)
  {
    TemplateTextOne(p);
    match p
    case Words(t) => RenderPlain(t, rest, env, w);
    case Slot(before, name, after) =>
      SlotTrims(before, name, after);
      ValueStandsFor(ResolvePath(env, SplitDots(name), w).value, text, w);
      hide ResolvePath, SplitDots, ValueText, StandsFor, Render, TemplateText, IsSpace, GoodPiece;
      RenderHole(before, name, after, rest, env, w);
  }

  /** The names in a template's holes, in order. */
  function HoleNames(t: string): seq<string>
    decreases |t|
  {
    if t == "" then [] else
    match Hole(t)
    case None => HoleNames(t[1..])
    case Some((name, n)) => [name] + HoleNames(t[n..])
  }

  function Roots(names: seq<string>): seq<string> {
    if names == [] then [] else [SplitDots(names[0])[0]] + Roots(names[1..])
  }

  /** A rendering depends on nothing but the allowed namespaces its holes name. */
  lemma {:induction false} RenderConfined(t: string, a: Env, b: Env, w: World)
    requires AgreeOn(Roots(HoleNames(t)), a, b)
    ensures Render(t, a, w) == Render(t, b, w)
    decreases |t|
  {
    hide Hole, ResolvePath, ValueText;
    if t != "" {
      match Hole(t)
      case None => RenderConfined(t[1..], a, b, w);
      case Some((name, n)) =>
        assert ([name] + HoleNames(t[n..]))[1..] == HoleNames(t[n..]);
        AgreeOnSplit([SplitDots(name)[0]], Roots(HoleNames(t[n..])), a, b);
        ResolveConfined(SplitDots(name), a, b, w);
        RenderConfined(t[n..], a, b, w);
    }
  }

  /** The error of the first hole whose root is forbidden or that misuses `now`. */
  function FirstBadHole(names: seq<string>): Option<Error> {
    if names == [] then None else
    var path := SplitDots(names[0]);
    if path[0] !in ALLOWED then Some(Denied(path[0]))
    else if path[0] == "now" && |path| > 1 then Some(BadExpression)
    else FirstBadHole(names[1..])
  }

  /** Whether a rendering fails, and how, is decided by the hole names alone: it fails with the error
      of the first bad hole, and succeeds when there is none. */
  lemma {:induction false} RenderFailsIff(t: string, env: Env, w: World)
    ensures match FirstBadHole(HoleNames(t))
            case None => Render(t, env, w).Output?
            case Some(error) => Render(t, env, w) == RenderFailed(error)
    decreases |t|
  {
    hide Hole, SplitDots, Walk, ValueText;
    if t != "" {
      match Hole(t)
      case None => RenderFailsIff(t[1..], env, w);
      case Some((name, n)) =>
        assert ([name] + HoleNames(t[n..]))[1..] == HoleNames(t[n..]);
        RenderFailsIff(t[n..], env, w);
    }
  }

  // ---------- Type recovery ----------

  function Dashes(s: string): nat {
    Span(s, (c: char) => c == '-')
  }

  /** What `set_context` stores for a rendered text; `None` is the ValueError of `int` on text such as
      `--5`. */
  function Recover(s: string, w: World): Option<Value> {
    var t := Strip(s);
    if t == "true" || t == "false" then Some(Bool(t == "true"))
    else if AllDigits(t[Dashes(t)..]) then
      if IsIntText(t) then Some(Int(IntValue(t))) else None
    else
      match w.number(t)
      case None => Some(Str(s))
      case Some(v) => Some(v)
  }

  lemma NatTextEnds(n: nat)
    ensures NatText(n) != "" && IsDigit(NatText(n)[0]) && IsDigit(NatText(n)[|NatText(n)| - 1])
  {
  }

  lemma StripIntText(n: int)
    ensures Strip(IntText(n)) == IntText(n)
  {
    var t := IntText(n);
    NatTextEnds(if n < 0 then -n else n);
    assert !IsSpace(t[0]) && !IsSpace(t[|t| - 1]) by { hide NatText; }
    StripPadded("", t, "");
    assert "" + t + "" == t;
  }

  lemma DashesOfIntText(n: int)
    ensures IntText(n)[Dashes(IntText(n))..] == NatText(if n < 0 then -n else n)
  {
    var t := IntText(n);
    NatTextEnds(if n < 0 then -n else n);
    hide NatText;
    SpanIs(t, (c: char) => c == '-', if n < 0 then 1 else 0);
  }

  lemma IntTextIsNotBool(n: int)
    ensures IntText(n) != "true" && IntText(n) != "false"
  {
    NatTextEnds(if n < 0 then -n else n);
    hide NatText;
    assert IntText(n)[0] == '-' || IsDigit(IntText(n)[0]);
    assert "true"[0] == 't' && "false"[0] == 'f';
  }

  /** An integer that is rendered and recovered is the integer again. */
  lemma RecoverInt(n: int, w: World)
    ensures Recover(IntText(n), w) == Some(Int(n))
  {
    IntTextRoundTrip(n);
    StripIntText(n);
    DashesOfIntText(n);
    IntTextIsNotBool(n);
    hide IntText, NatText, Strip, IsIntText, IntValue, Dashes, AllDigits;
  }

  /** So is a boolean; a null is stored as whatever the empty text stands for. */
  lemma RecoverBool(b: bool, w: World)
    ensures Recover(ValueText(Bool(b), w), w) == Some(Bool(b))
  {
    var t := ValueText(Bool(b), w);
    assert t[|t| - 1] == 'e';
    StripPadded("", t, "");
    assert "" + t + "" == t;
  }

  /** Text that is neither a boolean nor digits after dashes is stored as it is, blanks included, or as the number
      that it is the text of. */
  lemma RecoverText(s: string, w: World)
    requires Strip(s) != "true" && Strip(s) != "false"
    requires !AllDigits(Strip(s)[Dashes(Strip(s))..])
    ensures w.number(Strip(s)).None? ==> Recover(s, w) == Some(Str(s))
    ensures w.number(Strip(s)).Some? ==> Recover(s, w) == w.number(Strip(s))
  {
  }

  /** More than one dash before digits is refused, as `int` refuses it. */
  lemma DashesAreRefused(dashes: string, n: nat, w: World)
    requires |dashes| >= 2 && forall i :: 0 <= i < |dashes| ==> dashes[i] == '-'
    ensures Recover(dashes + NatText(n), w) == None
  {
    ManyDashes(dashes, n);
    hide Strip, Dashes, NatText, IsIntText, AllDigits;
  }

  lemma ManyDashes(dashes: string, n: nat)
    requires |dashes| >= 2 && forall i :: 0 <= i < |dashes| ==> dashes[i] == '-'
    ensures var t := dashes + NatText(n);
            Strip(t) == t && t[Dashes(t)..] == NatText(n) && AllDigits(NatText(n)) && !IsIntText(t)
            && t != "true" && t != "false"
  {
    var t := dashes + NatText(n);
    NatTextEnds(n);
    DashedStrips(t);
    hide NatText, Strip, IsSpace, Dashes;
    assert Dashes(t) == Span(t, (c: char) => c == '-') by { DashesIsSpan(t); }
    SpanIs(t, (c: char) => c == '-', |dashes|);
    assert t[..|dashes|] == dashes && t[|dashes|..] == NatText(n);
    assert t[1] == '-' && t[1..][0] == t[1];
  }

  lemma DashesIsSpan(t: string)
    ensures Dashes(t) == Span(t, (c: char) => c == '-')
  {
  }

  lemma DashedStrips(t: string)
    requires |t| >= 2 && t[0] == '-' && IsDigit(t[|t| - 1])
    ensures Strip(t) == t && t != "true" && t != "false"
  {
    assert !IsSpace(t[0]) && !IsSpace(t[|t| - 1]);
    StripPadded("", t, "");
    assert "" + t + "" == t;
    assert "true"[0] == 't' && "false"[0] == 'f';
  }

  /** `set_context` of a single hole that resolves to an integer stores that integer. */
  lemma RenderedIntRecovered(name: string, n: int, env: Env, w: World)
    requires All(name, NotBrace) && name != "" && !IsSpace(name[0]) && !IsSpace(name[|name| - 1])
    requires ResolvePath(env, SplitDots(name), w) == Ok(Int(n))
    ensures Render("{{" + name + "}}", env, w) == Output(IntText(n))
    ensures Recover(IntText(n), w) == Some(Int(n))
  {
    hide Hole, Recover, ResolvePath, SplitDots, IntText;
    RenderHole("", name, "", "", env, w);
    assert "{{" + ("" + name + "") + "}}" + "" == "{{" + name + "}}";
    assert IntText(n) + "" == IntText(n);
    RecoverInt(n, w);
  }
}
