/** The owner-alert plugin (examples/owner-alert/cue.yaml), from the text of its guard to whole runs of
    the concurrent engine: no round is alerted twice. */
module OwnerAlert {
  import opened Text
  import opened Lexer
  import opened Grammar
  import opened Descent
  import opened Parser
  import opened Printer
  import opened PyFloat
  import opened Evaluator
  import opened Template
  import opened Chart
  import opened ChartFacts
  import opened ActionFacts
  import opened Machine

  // ---------- The guard, as text and as syntax ----------

  predicate IsAlias(name: string) {
    name != "" && IsIdentStart(name[0]) && All(name, IsWordChar)
  }

  /** A text given as its tokens and the blanks between them. */
  datatype Pieces = End | Token(t: string, more: Pieces) | Blank(more: Pieces)

  function Spelled(p: Pieces): string {
    match p
    case End => ""
    case Token(t, more) => t + Spelled(more)
    case Blank(more) => " " + Spelled(more)
  }

  function TokensOf(p: Pieces): seq<string> {
    match p
    case End => []
    case Token(t, more) => [t] + TokensOf(more)
    case Blank(more) => TokensOf(more)
  }

  /** `peers.<alias>.history.last_inbound_contains('urgent:')` */
  function TestPieces(alias: string, more: Pieces): Pieces {
    Token("peers", Token(".", Token(alias, Token(".", Token("history", Token(".",
      Token("last_inbound_contains", Token("(", Token("'urgent:'", Token(")", more))))))))))
  }

  /** ` && event.new_round > context.last_notified_round` */
  function RoundPieces(): Pieces {
    Blank(Token("&&", Blank(Token("event", Token(".", Token("new_round", Blank(Token(">", Blank(
      Token("context", Token(".", Token("last_notified_round", End))))))))))))
  }

  function GuardPieces(a: string, b: string): Pieces {
    Token("(", TestPieces(a, Blank(Token("||", Blank(TestPieces(b, Token(")", RoundPieces())))))))
  }

  /** The guard of the plugin for its two peer aliases: either peer's recent inbound text contains
      `urgent:`, and the round is newer than the last one notified. */
  function GuardText(a: string, b: string): string {
    Spelled(GuardPieces(a, b))
  }

  function TestTokens(alias: string): seq<string> {
    ["peers", ".", alias, ".", "history", ".", "last_inbound_contains", "(", "'urgent:'", ")"]
  }

  const ROUND_TOKENS: seq<string> := ["&&", "event", ".", "new_round", ">", "context", ".", "last_notified_round"]

  function GuardTokens(a: string, b: string): seq<string> {
    ["("] + (TestTokens(a) + (["||"] + (TestTokens(b) + ([")"] + ROUND_TOKENS))))
  }

  function TestSyntax(alias: string): Expr {
    Method(["peers", alias, "history", "last_inbound_contains"], [Lit(LString("urgent:"))])
  }

  const ROUND_SYNTAX: Expr :=
    Cmp(">", Variable(["event", "new_round"]), Variable(["context", "last_notified_round"]))

  function GuardSyntax(a: string, b: string): Expr {
    Logical(And, Logical(Or, TestSyntax(a), TestSyntax(b)), ROUND_SYNTAX)
  }

  // ---------- Lexing the guard ----------

  predicate BreaksWord(rest: string) {
    rest == "" || !IsWordChar(rest[0])
  }

  lemma LexWord(t: string, rest: string)
    requires IsAlias(t) && BreaksWord(rest)
    ensures Lex(t + rest) == Prepend([t], Lex(rest))
  {
    var s := t + rest;
    SpanIs(t, IsWordChar, |t|);
    SpanAppend(t, rest, IsWordChar);
    assert s[0] == t[0];
    WordMatchesNoOther(s);
    FirstMatchAt(s, 0, 20);
    LexStep(t, rest);
  }

  lemma WordMatchesNoOther(s: string)
    requires s != "" && IsIdentStart(s[0])
    ensures forall b :: 0 <= b < 20 ==> MatchLength(ALTERNATIVES[b], s) == 0
  {
  }

  lemma PlainMatchesNoNumber(s: string)
    requires StartsPlain(s)
    ensures forall b :: 0 <= b < 6 ==> MatchLength(ALTERNATIVES[b], s) == 0
  {
  }

  predicate IsSoleMark(t: string) {
    t == "." || t == "(" || t == ")" || t == "&&" || t == "||"
  }

  /** What the `i`-th alternative is, when it is a mark. */
  predicate IsFixed(i: nat, text: string) {
    i < |ALTERNATIVES| && ALTERNATIVES[i].Fixed? && ALTERNATIVES[i].text == text
  }

  /** The marks before the dot, in order. */
  lemma MarkStarts()
    ensures IsFixed(6, "==") && IsFixed(7, "!=") && IsFixed(8, ">=") && IsFixed(9, "<=") && IsFixed(10, "&&")
    ensures IsFixed(11, "||") && IsFixed(12, "!") && IsFixed(13, ">") && IsFixed(14, "<")
    ensures IsFixed(15, "(") && IsFixed(16, ")") && IsFixed(17, ",") && IsFixed(18, ".")
  {
  }

  /** No other mark starts like a dot, a parenthesis or a connective. */
  lemma LexSoleMark(t: string, rest: string)
    requires IsSoleMark(t)
    ensures Lex(t + rest) == Prepend([t], Lex(rest))
  {
    hide Lex, Prepend, FirstMatch;
    var s := t + rest;
    MarkStarts();
    assert s[0] == t[0];
    PlainMatchesNoNumber(s);
    FirstMatchAt(s, 0, if t == "." then 18 else if t == "(" then 15 else if t == ")" then 16 else if t == "&&" then 10 else 11);
    LexStep(t, rest);
  }

  lemma LexGreater(rest: string)
    requires rest != "" && rest[0] == ' '
    ensures Lex(">" + rest) == Prepend([">"], Lex(rest))
  {
    hide Lex, Prepend, FirstMatch;
    var s := ">" + rest;
    MarkStarts();
    assert s[0] == '>' && s[1] == ' ';
    PlainMatchesNoNumber(s);
    FirstMatchAt(s, 0, 13);
    LexStep(">", rest);
  }

  lemma LexNeedle(rest: string)
    ensures Lex("'urgent:'" + rest) == Prepend(["'urgent:'"], Lex(rest))
  {
    var t := "'urgent:'";
    var s := t + rest;
    assert s[1..] == "urgent:'" + rest;
    SpanIs(s[1..], c => c != '\'', 7);
    assert MatchLength(Quoted('\''), s) == 9;
    forall b | 0 <= b < 4 { QuoteIsNoNumber(s, b); }
    OtherQuote(s);
    FirstMatchAt(s, 0, 5);
    LexStep(t, rest);
  }

  function FirstChar(p: Pieces): Option<char> {
    match p
    case End => None
    case Token(t, _) => if t == "" then None else Some(t[0])
    case Blank(_) => Some(' ')
  }

  /** A token that the lexer cuts off where the next piece begins. */
  predicate Fits(t: string, next: Option<char>) {
    || (IsAlias(t) && (next.None? || !IsWordChar(next.value)))
    || IsSoleMark(t)
    || (t == ">" && next == Some(' '))
    || t == "'urgent:'"
  }

  predicate Fit(p: Pieces) {
    match p
    case End => true
    case Token(t, more) => Fits(t, FirstChar(more)) && Fit(more) && (more.Token? ==> more.t != "")
    case Blank(more) => Fit(more)
  }

  lemma SpelledStarts(p: Pieces)
    requires p.Token? ==> p.t != ""
    ensures FirstChar(p) == if Spelled(p) == "" then None else Some(Spelled(p)[0])
  {
  }

  /** Lexing a text made of fitting pieces gives its tokens. */
  lemma {:induction false} LexPieces(p: Pieces)
    requires Fit(p)
    ensures Lex(Spelled(p)) == Some(TokensOf(p))
  {
    match p
    case End =>
    case Blank(more) =>
      LexPieces(more);
      assert (" " + Spelled(more))[1..] == Spelled(more);
    case Token(t, more) =>
      hide Lex, Fit;
      LexPieces(more) by { FitRest(p); }
      FitRest(p);
      SpelledStarts(more);
      var rest := Spelled(more);
      if IsAlias(t) && (FirstChar(more).None? || !IsWordChar(FirstChar(more).value)) {
        LexWord(t, rest);
      } else if IsSoleMark(t) {
        LexSoleMark(t, rest);
      } else if t == ">" {
        LexGreater(rest);
      } else {
        LexNeedle(rest);
      }
  }

  lemma FitRest(p: Pieces)
    requires Fit(p) && p.Token?
    ensures Fit(p.more) && Fits(p.t, FirstChar(p.more)) && (p.more.Token? ==> p.more.t != "")
  {
  }

  lemma FitToken(t: string, more: Pieces)
    requires Fit(more) && Fits(t, FirstChar(more)) && (more.Token? ==> more.t != "")
    ensures Fit(Token(t, more))
  {
  }

  /** A word before a mark or a blank. */
  lemma FitWord(t: string, more: Pieces)
    requires IsAlias(t) && Fit(more)
    requires more.Blank? || (more.Token? && IsSoleMark(more.t))
    ensures Fit(Token(t, more))
  {
  }

  lemma FitMark(t: string, more: Pieces)
    requires IsSoleMark(t) && Fit(more) && (more.Token? ==> more.t != "")
    ensures Fit(Token(t, more))
  {
  }

  lemma WordsAreAliases()
    ensures IsAlias("peers") && IsAlias("history") && IsAlias("last_inbound_contains")
    ensures IsAlias("event") && IsAlias("new_round") && IsAlias("context") && IsAlias("last_notified_round")
  {
  }

  lemma NeedleFits(more: Pieces)
    requires Fit(more) && (more.Token? ==> more.t != "")
    ensures Fit(Token("'urgent:'", Token(")", more)))
  {
    hide IsAlias;
    FitMark(")", more);
    FitToken("'urgent:'", Token(")", more));
  }

  /** A dot and a word before something the word may stand before. */
  lemma FitDotted(t: string, more: Pieces)
    requires IsAlias(t) && Fit(more)
    requires more.Blank? || (more.Token? && IsSoleMark(more.t))
    ensures Fit(Token(t, more)) && Fit(Token(".", Token(t, more)))
  {
    FitWord(t, more);
    FitMark(".", Token(t, more));
  }

  lemma FitCall(more: Pieces)
    requires Fit(more) && (more.Token? ==> more.t != "")
    ensures Fit(Token(".", Token("last_inbound_contains", Token("(", Token("'urgent:'", Token(")", more))))))
  {
    WordsAreAliases();
    hide Fit, IsAlias;
    NeedleFits(more);
    FitMark("(", Token("'urgent:'", Token(")", more)));
    FitDotted("last_inbound_contains", Token("(", Token("'urgent:'", Token(")", more))));
  }

  lemma FitTest(alias: string, more: Pieces)
    requires IsAlias(alias) && Fit(more) && (more.Token? ==> more.t != "")
    ensures Fit(TestPieces(alias, more))
  {
    WordsAreAliases();
    FitCall(more);
    hide Fit, IsAlias;
    var call := Token(".", Token("last_inbound_contains", Token("(", Token("'urgent:'", Token(")", more)))));
    FitDotted("history", call);
    FitDotted(alias, Token(".", Token("history", call)));
    FitWord("peers", Token(".", Token(alias, Token(".", Token("history", call)))));
  }

  lemma FitRound()
    ensures Fit(RoundPieces())
  {
    WordsAreAliases();
    hide IsAlias;
    var p1 := Token("last_notified_round", End);
    assert Fit(p1);
    var p2 := Token(".", p1);
    FitMark(".", p1);
    var p3 := Token("context", p2);
    FitWord("context", p2);
    var p4 := Token(">", Blank(p3));
    assert Fit(p4);
    var p5 := Token("new_round", Blank(p4));
    FitWord("new_round", Blank(p4));
    var p6 := Token(".", p5);
    FitMark(".", p5);
    var p7 := Token("event", p6);
    FitWord("event", p6);
    FitMark("&&", Blank(p7));
  }

  lemma TokensOfTest(alias: string, more: Pieces)
    ensures TokensOf(TestPieces(alias, more)) == TestTokens(alias) + TokensOf(more)
  {
    var p := Token("(", Token("'urgent:'", Token(")", more)));
    assert TokensOf(Token("'urgent:'", Token(")", more))) == ["'urgent:'", ")"] + TokensOf(more);
    assert TokensOf(p) == ["(", "'urgent:'", ")"] + TokensOf(more);
    var q := Token("history", Token(".", Token("last_inbound_contains", p)));
    assert TokensOf(Token("last_inbound_contains", p)) == ["last_inbound_contains", "(", "'urgent:'", ")"] + TokensOf(more);
    assert TokensOf(q) == ["history", ".", "last_inbound_contains", "(", "'urgent:'", ")"] + TokensOf(more);
    assert TokensOf(Token(alias, Token(".", q)))
        == [alias, ".", "history", ".", "last_inbound_contains", "(", "'urgent:'", ")"] + TokensOf(more);
  }

  lemma TokensOfRound()
    ensures TokensOf(RoundPieces()) == ROUND_TOKENS
  {
    var p1 := Token("context", Token(".", Token("last_notified_round", End)));
    assert TokensOf(p1) == ["context", ".", "last_notified_round"];
    var p2 := Token("new_round", Blank(Token(">", Blank(p1))));
    assert TokensOf(p2) == ["new_round", ">", "context", ".", "last_notified_round"];
    assert TokensOf(Token("event", Token(".", p2))) == ["event", ".", "new_round", ">", "context", ".", "last_notified_round"];
  }

  lemma LexGuard(a: string, b: string)
    requires IsAlias(a) && IsAlias(b)
    ensures Lex(GuardText(a, b)) == Some(GuardTokens(a, b))
  {
    FitRound();
    TokensOfRound();
    hide TestPieces, RoundPieces, TestTokens, Lex;
    var p := Token(")", RoundPieces());
    assert Fit(p);
    FitTest(b, p);
    TokensOfTest(b, p);
    var r := Blank(TestPieces(b, p));
    var q := Blank(Token("||", r));
    assert Fit(r) && TokensOf(r) == TestTokens(b) + TokensOf(p);
    FitMark("||", r);
    assert Fit(q) && TokensOf(q) == ["||"] + TokensOf(r);
    FitTest(a, q);
    TokensOfTest(a, q);
    FitMark("(", TestPieces(a, q));
    assert TokensOf(q) == ["||"] + (TestTokens(b) + ([")"] + ROUND_TOKENS));
    LexPieces(GuardPieces(a, b));
  }

  // ---------- Parsing the guard ----------

  function Needle(): Arguments {
    SomeArguments(OneOr(OneAnd(LiteralPrimary("'urgent:'"))), ArgumentsEnd)
  }

  function TestTree(alias: PathElement): Primary {
    MethodCall("peers", [alias, "history"], "last_inbound_contains", Needle())
  }

  function EventRound(): Primary {
    VariablePath("event", ["new_round"])
  }

  function LastRound(): Primary {
    VariablePath("context", ["last_notified_round"])
  }

  function Tests(a: PathElement, b: PathElement): OrTree {
    Either(OneAnd(TestTree(a)), OneAnd(TestTree(b)))
  }

  function GuardTree(a: PathElement, b: PathElement): OrTree {
    OneOr(Both(OneNot(Paren(Tests(a, b))), Related(EventRound(), ">", LastRound())))
  }

  lemma {:induction false} NeedleYields()
    ensures YieldArguments(Needle()) == ["'urgent:'"]
    ensures AstArguments(Needle()) == [Lit(LString("urgent:"))]
  {
    YieldOne(LiteralPrimary("'urgent:'"));
    assert YieldPrimary(LiteralPrimary("'urgent:'")) == ["'urgent:'"];
    assert YieldArgumentsMore(ArgumentsEnd) == [];
    var t := "'urgent:'";
    assert t[1..|t| - 1] == "urgent:";
    assert LiteralOf(t) == Some(LString("urgent:")) by {
      NotDecimal(t);
      NotInteger(t);
    }
  }

  lemma {:induction false} PathOfOne(x: PathElement)
    ensures YieldPath([x]) == [".", x]
  {
    assert [x][1..] == [];
  }

  lemma {:induction false} PathOfThree(x: PathElement, y: PathElement, z: PathElement)
    ensures YieldPath([x, y, z]) == [".", x, ".", y, ".", z]
  {
    var path := [x, y, z];
    assert path[1..] == [y, z] && path[1..][1..] == [z];
    PathOfOne(z);
    assert YieldPath([y, z]) == [".", y] + [".", z];
  }

  lemma {:induction false} TestYields(alias: PathElement)
    ensures YieldPrimary(TestTree(alias)) == TestTokens(alias)
  {
    NeedleYields();
    hide Needle, LiteralOf, IsName;
    assert [alias, "history"] + ["last_inbound_contains"] == [alias, "history", "last_inbound_contains"];
    PathOfThree(alias, "history", "last_inbound_contains");
    hide YieldPath;
    assert YieldPrimary(TestTree(alias)) == ["peers"] + ([".", alias, ".", "history", ".", "last_inbound_contains"]
                                                         + (["("] + (["'urgent:'"] + [")"])));
  }

  lemma {:induction false} TestMeans(alias: PathElement)
    ensures AstPrimary(TestTree(alias)) == TestSyntax(alias)
  {
    NeedleYields();
    hide Needle, LiteralOf, IsName, IsPathElement;
    assert ["peers"] + ([alias, "history"] + ["last_inbound_contains"]) == ["peers", alias, "history", "last_inbound_contains"];
  }

  lemma {:induction false} RoundYields()
    ensures YieldNot(Related(EventRound(), ">", LastRound())) ==
              ["event", ".", "new_round", ">", "context", ".", "last_notified_round"]
  {
    PathOfOne("new_round");
    PathOfOne("last_notified_round");
    assert YieldPrimary(EventRound()) == ["event", ".", "new_round"];
    assert YieldPrimary(LastRound()) == ["context", ".", "last_notified_round"];
    assert YieldCmp(Relation(EventRound(), ">", LastRound()))
        == YieldPrimary(EventRound()) + ([">"] + YieldPrimary(LastRound()));
  }

  lemma {:induction false} RoundMeans()
    ensures AstNot(Related(EventRound(), ">", LastRound())) == ROUND_SYNTAX
  {
    assert ["event"] + ["new_round"] == ["event", "new_round"];
    assert ["context"] + ["last_notified_round"] == ["context", "last_notified_round"];
    assert AstPrimary(EventRound()) == Variable(["event", "new_round"]);
    assert AstPrimary(LastRound()) == Variable(["context", "last_notified_round"]);
  }

  lemma {:induction false} TestsYield(a: PathElement, b: PathElement)
    ensures YieldOr(Tests(a, b)) == TestTokens(a) + (["||"] + TestTokens(b))
    ensures AstOr(Tests(a, b)) == Logical(Or, TestSyntax(a), TestSyntax(b))
  {
    TestYields(a);
    TestYields(b);
    TestMeans(a);
    TestMeans(b);
    YieldOne(TestTree(a));
    YieldOne(TestTree(b));
    hide TestTree, TestTokens, TestSyntax, OneAnd;
    assert TestTokens(b) + [] == TestTokens(b);
    assert YieldOrMore(OrNext(OneAnd(TestTree(b)), OrEnd)) == ["||"] + TestTokens(b);
  }

  lemma {:induction false} BothYields(l: NotTree, r: NotTree)
    ensures YieldOr(OneOr(Both(l, r))) == YieldNot(l) + (["&&"] + YieldNot(r))
  {
    assert YieldNot(r) + [] == YieldNot(r);
    assert YieldAndMore(AndNext(r, AndEnd)) == ["&&"] + YieldNot(r);
    assert YieldAnd(Both(l, r)) == YieldNot(l) + (["&&"] + YieldNot(r));
    assert YieldAnd(Both(l, r)) + [] == YieldAnd(Both(l, r));
  }

  lemma {:induction false} GuardYields(a: PathElement, b: PathElement)
    ensures YieldOr(GuardTree(a, b)) == GuardTokens(a, b)
  {
    TestsYield(a, b);
    RoundYields();
    hide Tests, TestTokens, EventRound, LastRound, Related, Both, OneOr, OneNot, YieldNot, YieldOr, YieldPath;
    var p, r := Paren(Tests(a, b)), Related(EventRound(), ">", LastRound());
    YieldOne(p);
    BothYields(OneNot(p), r);
    assert YieldPrimary(p) == ["("] + (YieldOr(Tests(a, b)) + [")"]);
    hide YieldPrimary;
    assert ["&&"] + YieldNot(r) == ROUND_TOKENS;
    GuardTokensRegrouped(TestTokens(a), TestTokens(b), ROUND_TOKENS);
  }

  lemma GuardTokensRegrouped(a: seq<string>, b: seq<string>, r: seq<string>)
    ensures (["("] + ((a + (["||"] + b)) + [")"])) + r == ["("] + (a + (["||"] + (b + ([")"] + r))))
  {
  }

  lemma {:induction false} GuardMeans(a: PathElement, b: PathElement)
    ensures AstOr(GuardTree(a, b)) == GuardSyntax(a, b)
  {
    TestsYield(a, b);
    RoundMeans();
    hide Tests, TestSyntax, EventRound, LastRound, Related, Both, OneOr, OneNot;
  }

  /** The guard text of the plugin parses to the syntax it is meant to have. */
  lemma ParseGuard(a: string, b: string)
    requires IsAlias(a) && IsAlias(b)
    ensures Parse(GuardText(a, b)) == Some(GuardSyntax(a, b))
  {
    LexGuard(a, b);
    GuardYields(a, b);
    GuardMeans(a, b);
    hide GuardText, GuardTree, GuardTokens, GuardSyntax, Lex, Derivation;
    DerivationIff(GuardTokens(a, b), GuardTree(a, b));
  }

  // ---------- The chart ----------

  const LAST: string := "last_notified_round"
  const ROUND_NAME: string := "event.new_round"
  const HOLE: string := "{{" + ROUND_NAME + "}}"

  function AlertActions(message: string, peer: string, text: Source, metadata: Option<Metadata>): seq<Action> {
    [SetContext([(LAST, Textual(HOLE))]), Log(message), SendA2A(peer, text, metadata)]
  }

  /** One state that watches for history changes and returns to itself; the wording of the log line and of
      the alert is free. */
  function AlertConfig(a: string, b: string, message: string, peer: string, text: Source, metadata: Option<Metadata>,
                       name: string, version: string, meta: Value, persistent: bool, exclude: seq<string>): Config {
    var entry := Entry(Some(GuardText(a, b)), Some("watching"), AlertActions(message, peer, text, metadata));
    Config(name, version, meta,
           map["watching" := StateDef(map["history_change" := One(entry)], [])],
           "watching", map[LAST := Int(0)], persistent, exclude, {})
  }

  ghost predicate IsOwnerAlert(cfg: Config) {
    exists a, b, message, peer, text, metadata ::
      IsAlias(a) && IsAlias(b) &&
      cfg == AlertConfig(a, b, message, peer, text, metadata, cfg.name, cfg.version, cfg.meta, cfg.persistent, cfg.exclude)
  }

  /** The plugin is watching and remembers `last` as the round notified last. */
  predicate Watches(core: Core, last: int) {
    core.state == "watching" && LAST in core.context && core.context[LAST] == Int(last)
  }

  /** A history change carries an integer round; nothing is asked of other events. */
  predicate IntegerRound(ev: Event) {
    ev.kind == "history_change" ==> "new_round" in ev.payload && ev.payload["new_round"].Int?
  }

  // ---------- One transition of the plugin ----------

  lemma {:induction false} RoundIsPath()
    ensures SplitDots(ROUND_NAME) == ["event", "new_round"]
  {
    hide SplitDots;
    SplitFirst("event", "new_round");
    SplitNone("new_round");
    assert "event" + "." + "new_round" == "event.new_round";
  }

  /** In every environment of a run on a history change, `event.new_round` is the event's round. */
  lemma EventRoundResolves(run: Run, context: Context, snap: Snap, round: int)
    requires "new_round" in run.ev.payload && run.ev.payload["new_round"] == Int(round)
    ensures ResolvePath(EnvOf(run, context, snap), ["event", "new_round"], snap.world) == Ok(Int(round))
  {
    var entries := EventDict(run.ev);
    assert "new_round" in entries && entries["new_round"] == Int(round);
    var keys := ["event", "new_round"][1..];
    assert keys == ["new_round"] && keys[1..] == [];
    assert Walk(Dict(entries), keys, snap.world) == Int(round);
  }

  lemma LastRoundResolves(run: Run, context: Context, snap: Snap, last: int)
    requires LAST in context && context[LAST] == Int(last)
    ensures ResolvePath(EnvOf(run, context, snap), ["context", LAST], snap.world) == Ok(Int(last))
  {
    var keys := ["context", LAST][1..];
    assert keys == [LAST] && keys[1..] == [];
    assert Walk(Dict(context), keys, snap.world) == Int(last);
  }

  /** One of the two peers' recent inbound text contains the needle, as far as the guard can see. */
  predicate PeerTest(a: string, b: string, env: Env, w: World) {
    var v := Evaluate(Logical(Or, TestSyntax(a), TestSyntax(b)), env, w);
    v.Ok? && Truthy(v.value, w)
  }

  /** The guard passes exactly when one of the peers passes the test and the event's round is newer than the
      last one notified by enough for doubles to tell. */
  lemma GuardIff(a: string, b: string, run: Run, context: Context, last: int, round: int, i: nat)
    requires IsAlias(a) && IsAlias(b)
    requires LAST in context && context[LAST] == Int(last)
    requires "new_round" in run.ev.payload && run.ev.payload["new_round"] == Int(round)
    ensures var snap := run.o.guardSnap(i);
            CheckGuard(run, context, Some(GuardText(a, b)), i) == Passed <==>
              && PeerTest(a, b, EnvOf(run, context, snap), snap.world)
              && round > last && ToFloat(round).Some? && ToFloat(last).Some? && ToFloat(round) != ToFloat(last)
  {
    var snap := run.o.guardSnap(i);
    var env := EnvOf(run, context, snap);
    ParseGuard(a, b);
    GuardIsNotEmpty(a, b);
    EventRoundResolves(run, context, snap, round);
    LastRoundResolves(run, context, snap, last);
    hide ResolvePath, EnvOf, Compare, GuardText, Parse, Evaluate, Truthy, TestSyntax, ToFloat;
    AndNeedsBoth(Logical(Or, TestSyntax(a), TestSyntax(b)), ROUND_SYNTAX, env, snap.world);
    RoundComparison(env, snap.world, round, last);
    ComparisonIsBool(round, last, snap.world);
    GreaterIff(round, last);
  }

  lemma GuardIsNotEmpty(a: string, b: string)
    requires IsAlias(a) && IsAlias(b)
    ensures GuardText(a, b) != ""
  {
    LexGuard(a, b);
    hide GuardText;
  }

  lemma {:induction false} AndNeedsBoth(l: Expr, r: Expr, env: Env, w: World)
    ensures Evaluate(Logical(And, l, r), env, w).Ok? && Truthy(Evaluate(Logical(And, l, r), env, w).value, w) <==>
              && Evaluate(l, env, w).Ok? && Truthy(Evaluate(l, env, w).value, w)
              && Evaluate(r, env, w).Ok? && Truthy(Evaluate(r, env, w).value, w)
  {
    hide Truthy;
  }

  lemma {:induction false} RoundComparison(env: Env, w: World, round: int, last: int)
    requires ResolvePath(env, ["event", "new_round"], w) == Ok(Int(round))
    requires ResolvePath(env, ["context", LAST], w) == Ok(Int(last))
    ensures Evaluate(ROUND_SYNTAX, env, w) == Compare(Int(round), ">", Int(last))
  {
    hide ResolvePath, Compare;
    assert Evaluate(Variable(["event", "new_round"]), env, w) == Ok(Int(round));
    assert Evaluate(Variable(["context", "last_notified_round"]), env, w) == Ok(Int(last));
  }

  lemma ComparisonIsBool(m: int, n: int, w: World)
    ensures Compare(Int(m), ">", Int(n)).Ok? && Truthy(Compare(Int(m), ">", Int(n)).value, w) <==>
              Compare(Int(m), ">", Int(n)) == Ok(Bool(true))
  {
  }

  lemma HoleRenders(run: Run, context: Context, snap: Snap, round: int)
    requires "new_round" in run.ev.payload && run.ev.payload["new_round"] == Int(round)
    ensures Render(HOLE, EnvOf(run, context, snap), snap.world) == Output(IntText(round))
    ensures Recover(IntText(round), snap.world) == Some(Int(round))
  {
    RoundIsPath();
    RoundNameIsTrimmed();
    EventRoundResolves(run, context, snap, round);
    hide EnvOf, ResolvePath, Render, Recover, SplitDots, IntText, All, IsSpace;
    RenderedIntRecovered(ROUND_NAME, round, EnvOf(run, context, snap), snap.world);
  }

  lemma RoundNameIsTrimmed()
    ensures All(ROUND_NAME, NotBrace) && !IsSpace(ROUND_NAME[0]) && !IsSpace(ROUND_NAME[|ROUND_NAME| - 1])
  {
  }

  /** One item of `set_context` whose template renders and is recovered. */
  lemma {:induction false} SetOne(run: Run, context: Context, key: string, template: string, k: nat, text: string, v: Value)
    requires var snap := run.o.actionSnap(k, 0);
             Render(template, EnvOf(run, context, snap), snap.world) == Output(text) && Recover(text, snap.world) == Some(v)
    ensures SetItems(run, context, [(key, Textual(template))], k, 0) == Outcome(context[key := v], [], Done)
  {
    hide Render, Recover, EnvOf;
    assert SetItems(run, context[key := v], [(key, Textual(template))], k, 1) == Outcome(context[key := v], [], Done);
  }

  /** The first action stores exactly the event's round. */
  lemma StoresRound(run: Run, context: Context, k: nat, round: int)
    requires "new_round" in run.ev.payload && run.ev.payload["new_round"] == Int(round)
    ensures DoAction(run, SetContext([(LAST, Textual(HOLE))]), k, context) == Outcome(context[LAST := Int(round)], [], Done)
  {
    hide Render, Recover, EnvOf, IntText, SetItems;
    HoleRenders(run, context, run.o.actionSnap(k, 0), round);
    SetOne(run, context, LAST, HOLE, k, IntText(round), Int(round));
    assert [] + Outcome(context, [], Done).effects == [];
  }

  lemma LogSendsNothing(run: Run, message: string, k: nat, context: Context)
    ensures var d := DoAction(run, Log(message), k, context);
            && d.context == context && Sends(d.effects) == 0
            && (d.status == Done <==> StartAction(run, Log(message), k, context).status == Done)
  {
    hide Render, EnvOf;
    var d := DoAction(run, Log(message), k, context);
    if d.effects != [] {
      assert d.effects[1..] == [];
    }
  }

  const SEND: nat := 2   // the place of the send among the actions

  /** The send of this transition raises TypeError after it has dispatched. */
  predicate LateTypeError(o: Oracle) {
    o.handler(SEND).firstCall == TypeErrorAfterDispatch
  }

  /** How many messages a transition dispatches that sends at all. */
  function Copies(o: Oracle): nat {
    if LateTypeError(o) then 2 else 1
  }

  /** The three actions leave the new round in the context whatever fails, and they dispatch nothing, or the alert
      once, or, after a late TypeError, twice. */
  lemma {:induction false} AlertRun(run: Run, message: string, peer: string, text: Source, metadata: Option<Metadata>,
                                    context: Context, round: int)
    requires "new_round" in run.ev.payload && run.ev.payload["new_round"] == Int(round)
    ensures var acts, c := AlertActions(message, peer, text, metadata), context[LAST := Int(round)];
            var out := RunActions(run, acts, 0, context);
            && out.context == c
            && Sends(out.effects) == (if Sends(out.effects) == 0 then 0 else Copies(run.o))
            && (Sends(out.effects) > 0 <==>
                 StartAction(run, acts[1], 1, c).status == Done && StartAction(run, acts[SEND], SEND, c).status == Done)
  {
    var acts := AlertActions(message, peer, text, metadata);
    var c := context[LAST := Int(round)];
    StoresRound(run, context, 0, round);
    LogSendsNothing(run, message, 1, c);
    SendDispatches(run, peer, text, metadata, SEND, c);
    hide DoAction, StartAction;
    var log, send := DoAction(run, acts[1], 1, c), DoAction(run, acts[2], 2, c);
    var last := RunActions(run, acts, 2, c);
    assert RunActions(run, acts, 3, c) == Outcome(c, [], Done);
    assert send.effects + [] == send.effects;
    assert last.context == c && last.effects == send.effects;
    var rest := RunActions(run, acts, 1, c);
    SendsConcat(log.effects, last.effects);
    assert rest.context == c;
    assert [] + rest.effects == rest.effects;
  }

  /** What the plugin does with a history change, from the answer of its guard on. */
  lemma AlertFiring(cfg: Config, core: Core, disk: Disk, ev: Event, o: Oracle, entry: Entry)
    requires "watching" in cfg.states && cfg.states["watching"].actions == []
    requires EntriesFor(cfg, core.state, ev.kind) == [entry]
    requires entry.Entry? && entry.target == Some("watching")
    ensures var run := RunOf(cfg, core, ev, o);
            var t := Transition(cfg, core, disk, ev, o);
            if CheckGuard(run, core.context, entry.guard, 0) == Passed then
              t == Conclude(cfg, core, disk, "watching", o, RunActions(run, entry.actions, 0, core.context))
            else
              t.core == core && t.effects == []
  {
    hide CheckGuard, RunActions, PersistTo, EntriesFor;
    AlertScan(RunOf(cfg, core, ev, o), core.context, entry);
    assert entry.actions + [] == entry.actions;
  }

  /** What one transition on a history change comes to: newer by the guard, remembered, and dispatched. */
  ghost predicate IsAlertStep(t: Transitioned, ev: Event, o: Oracle, last: int, after: int) {
    && Watches(t.core, after) && last <= after
    && Sends(t.effects) == (if Sends(t.effects) == 0 then 0 else Copies(o))
    && (Sends(t.effects) > 0 ==>
         && last < after && ToFloat(after).Some?
         && "new_round" in ev.payload && ev.payload["new_round"] == Int(after) && ev.kind == "history_change")
  }

  lemma AlertStepOf(cfg: Config, a: string, b: string, message: string, peer: string, text: Source,
                    metadata: Option<Metadata>, core: Core, disk: Disk, ev: Event, o: Oracle, last: int) returns (after: int)
    requires IsAlias(a) && IsAlias(b)
    requires cfg == AlertConfig(a, b, message, peer, text, metadata, cfg.name, cfg.version, cfg.meta, cfg.persistent, cfg.exclude)
    requires Watches(core, last) && IntegerRound(ev) && ev.kind == "history_change"
    ensures var t, run, acts := Transition(cfg, core, disk, ev, o), RunOf(cfg, core, ev, o), AlertActions(message, peer, text, metadata);
            && IsAlertStep(t, ev, o, last, after)
            && (Sends(t.effects) > 0 <==>
                 && CheckGuard(run, core.context, Some(GuardText(a, b)), 0) == Passed
                 && StartAction(run, acts[1], 1, core.context[LAST := ev.payload["new_round"]]).status == Done
                 && StartAction(run, acts[SEND], SEND, core.context[LAST := ev.payload["new_round"]]).status == Done)
  {
    hide GuardText, AlertActions, CheckGuard, RunActions, PersistTo, IsAlias, StartAction, Copies, ToFloat;
    var run, acts := RunOf(cfg, core, ev, o), AlertActions(message, peer, text, metadata);
    var entry := Entry(Some(GuardText(a, b)), Some("watching"), acts);
    assert EntriesFor(cfg, core.state, ev.kind) == [entry];
    AlertFiring(cfg, core, disk, ev, o, entry);
    hide Transition, EntriesFor;
    after := last;
    if CheckGuard(run, core.context, entry.guard, 0) == Passed {
      after := ev.payload["new_round"].n;
      GuardIff(a, b, run, core.context, last, after, 0);
      AlertRun(run, message, peer, text, metadata, core.context, after);
    }
  }

  /** One transition of the watching plugin: the remembered round never falls; if anything is sent, the round is
      newer than the one remembered before and is the one remembered after, and it is sent once, or twice
      exactly when the send raises TypeError after dispatching. */
  lemma AlertStep(cfg: Config, core: Core, disk: Disk, ev: Event, o: Oracle, last: int) returns (after: int)
    requires IsOwnerAlert(cfg) && Watches(core, last) && IntegerRound(ev)
    ensures IsAlertStep(Transition(cfg, core, disk, ev, o), ev, o, last, after)
  {
    hide IsAlias;
    var a, b, message, peer, text, metadata :|
      IsAlias(a) && IsAlias(b) &&
      cfg == AlertConfig(a, b, message, peer, text, metadata, cfg.name, cfg.version, cfg.meta, cfg.persistent, cfg.exclude);
    if ev.kind == "history_change" {
      hide Transition, IsAlertStep;
      after := AlertStepOf(cfg, a, b, message, peer, text, metadata, core, disk, ev, o, last);
    } else {
      assert EntriesFor(cfg, core.state, ev.kind) == [];
      after := last;
    }
  }

  lemma {:induction false} AlertScan(run: Run, context: Context, entry: Entry)
    requires entry.Entry? && entry.target == Some("watching") && "watching" in run.cfg.states
    ensures var g := CheckGuard(run, context, entry.guard, 0);
            Scan(run, context, [entry], 0) == if g == Passed then Fire(0, "watching") else Blocked(g)
  {
    hide CheckGuard;
  }

  // ---------- What an alert says ----------

  /** The text of the alert: the event's peer and its round between plain words. */
  function AlertPieces(p0: string, p1: string, p2: string): seq<Piece> {
    [Words(p0), Slot("", "event.peer", ""), Words(p1), Slot("", ROUND_NAME, ""), Words(p2)]
  }

  lemma {:induction false} PeerIsPath()
    ensures SplitDots("event.peer") == ["event", "peer"]
  {
    hide SplitDots;
    SplitFirst("event", "peer");
    SplitNone("peer");
    assert "event" + "." + "peer" == "event.peer";
  }

  lemma SlotIsGood(name: string)
    requires name != "" && '}' !in name && !IsSpace(name[0]) && !IsSpace(name[|name| - 1])
    ensures GoodPiece(Slot("", name, ""))
  {
    SpaceIsListed(name[0]);
    SpaceIsListed(name[|name| - 1]);
    hide IsSpace, WHITESPACE;
  }

  lemma SlotsAreGood()
    ensures GoodPiece(Slot("", "event.peer", "")) && GoodPiece(Slot("", ROUND_NAME, ""))
  {
    hide GoodPiece;
    SlotIsGood("event.peer");
    SlotIsGood(ROUND_NAME);
  }

  lemma AlertTextRenders(run: Run, context: Context, snap: Snap, p0: string, p1: string, p2: string, who: string, round: int)
    requires '{' !in p0 && '{' !in p1 && '{' !in p2
    requires "peer" in run.ev.payload && run.ev.payload["peer"] == Str(who)
    requires "new_round" in run.ev.payload && run.ev.payload["new_round"] == Int(round)
    ensures Render(TemplateText(AlertPieces(p0, p1, p2)), EnvOf(run, context, snap), snap.world)
         == Output(p0 + who + p1 + IntText(round) + p2)
  {
    var env, pieces := EnvOf(run, context, snap), AlertPieces(p0, p1, p2);
    var texts := [p0, who, p1, IntText(round), p2];
    EventPaths(run, context, snap, "peer");
    EventPaths(run, context, snap, "new_round");
    PeerIsPath();
    RoundIsPath();
    IntTextRoundTrip(round);
    SlotsAreGood();
    hide EnvOf, ResolvePath, SplitDots, IntText, Render, TemplateText, IsIntText, IntValue;
    assert PieceStandsFor(pieces[1], who, env, snap.world);
    assert PieceStandsFor(pieces[3], IntText(round), env, snap.world);
    RenderPieces(pieces, texts, env, snap.world);
    ConcatFive(p0, who, p1, IntText(round), p2);
  }

  lemma ConcatFive(a: string, b: string, c: string, d: string, e: string)
    ensures Concat([a, b, c, d, e]) == a + b + c + d + e
  {
    assert [a, b, c, d, e][1..] == [b, c, d, e] && [b, c, d, e][1..] == [c, d, e] && [c, d, e][1..] == [d, e];
    assert [d, e][1..] == [e] && [e][1..] == [];
    assert Concat([e]) == e by { assert e + "" == e; }
    assert Concat([d, e]) == d + e;
    assert Concat([c, d, e]) == c + (d + e);
    assert Concat([b, c, d, e]) == b + (c + (d + e));
    assert a + (b + (c + (d + e))) == a + b + c + d + e;
  }

  /** The messages dispatched by the three actions are those of the send. */
  lemma {:induction false} SentBySend(run: Run, message: string, peer: string, text: Source, metadata: Option<Metadata>,
                                      context: Context, round: int, e: Effect)
    requires "new_round" in run.ev.payload && run.ev.payload["new_round"] == Int(round)
    requires e.Sent? && e in RunActions(run, AlertActions(message, peer, text, metadata), 0, context).effects
    ensures e in DoAction(run, SendA2A(peer, text, metadata), SEND, context[LAST := Int(round)]).effects
  {
    var acts, c := AlertActions(message, peer, text, metadata), context[LAST := Int(round)];
    StoresRound(run, context, 0, round);
    LogSendsNothing(run, message, 1, c);
    LogIsNoSend(run, message, 1, c, e);
    hide DoAction, StartAction;
    assert RunActions(run, acts, 3, c) == Outcome(c, [], Done);
    var send := DoAction(run, acts[2], 2, c);
    assert e in RunActions(run, acts, 2, c).effects ==> e in send.effects;
    assert e in RunActions(run, acts, 1, c).effects ==> e in send.effects;
  }

  lemma LogIsNoSend(run: Run, message: string, k: nat, context: Context, e: Effect)
    requires e.Sent?
    ensures e !in DoAction(run, Log(message), k, context).effects
  {
    hide Render, EnvOf;
  }

  /** Every message that a transition of the plugin dispatches goes to the configured peer and says which peer
      and which round it is about, between the plugin's own words. */
  lemma AlertSays(cfg: Config, a: string, b: string, message: string, peer: string, p0: string, p1: string, p2: string,
                  metadata: Option<Metadata>, core: Core, disk: Disk, ev: Event, o: Oracle, who: string, round: int, e: Effect)
    requires IsAlias(a) && IsAlias(b) && '{' !in p0 && '{' !in p1 && '{' !in p2
    requires cfg == AlertConfig(a, b, message, peer, Textual(TemplateText(AlertPieces(p0, p1, p2))), metadata,
                                cfg.name, cfg.version, cfg.meta, cfg.persistent, cfg.exclude)
    requires core.state == "watching" && ev.kind == "history_change"
    requires "peer" in ev.payload && ev.payload["peer"] == Str(who)
    requires "new_round" in ev.payload && ev.payload["new_round"] == Int(round)
    requires e.Sent? && e in Transition(cfg, core, disk, ev, o).effects
    ensures e.peer == peer && e.text == p0 + who + p1 + IntText(round) + p2
  {
    hide GuardText, AlertActions, CheckGuard, RunActions, PersistTo, IsAlias, StartAction, TemplateText, AlertPieces, IntText;
    var text := Textual(TemplateText(AlertPieces(p0, p1, p2)));
    var run, acts := RunOf(cfg, core, ev, o), AlertActions(message, peer, text, metadata);
    var entry := Entry(Some(GuardText(a, b)), Some("watching"), acts);
    assert EntriesFor(cfg, core.state, ev.kind) == [entry];
    AlertFiring(cfg, core, disk, ev, o, entry);
    hide Transition, EntriesFor, AlertConfig;
    SentBySend(run, message, peer, text, metadata, core.context, round, e);
    var c := core.context[LAST := Int(round)];
    AlertTextRenders(run, c, run.o.actionSnap(SEND, 0), p0, p1, p2, who, round);
    SentTexts(run, peer, text, metadata, SEND, c, p0 + who + p1 + IntText(round) + p2, e);
  }

  lemma SentTexts(run: Run, peer: string, text: Source, metadata: Option<Metadata>, k: nat, context: Context, s: string, e: Effect)
    requires var snap := run.o.actionSnap(k, 0); RenderSource(text, EnvOf(run, context, snap), snap.world) == Output(s)
    requires e in DoAction(run, SendA2A(peer, text, metadata), k, context).effects
    ensures e.Sent? && e.peer == peer && e.text == s
  {
    hide RenderSource, EnvOf, RenderMetadata;
  }

  // ---------- Whole runs ----------

  /** The `i`-th acquisition's transition sends an alert. */
  ghost predicate AlertAt(cfg: Config, z: Serial, log: seq<Acquisition>, i: nat) {
    i < |log| &&
    var before := Replay(cfg, z, log[..i]);
    Sends(Transition(cfg, before.core, before.disk, log[i].ev, log[i].o).effects) > 0
  }

  function RoundOfEvent(ev: Event): Value {
    if "new_round" in ev.payload then ev.payload["new_round"] else Null
  }

  /** The rounds of the acquisitions whose transition sends an alert, in order. */
  ghost function AlertRounds(cfg: Config, z: Serial, log: seq<Acquisition>): seq<Value>
    decreases |log|
  {
    if log == [] then [] else
    var n := |log| - 1;
    AlertRounds(cfg, z, log[..n]) + (if AlertAt(cfg, z, log, n) then [RoundOfEvent(log[n].ev)] else [])
  }

  /** How many of these alerts a late TypeError dispatched a second time. */
  ghost function LateAlerts(cfg: Config, z: Serial, log: seq<Acquisition>): nat
    decreases |log|
  {
    if log == [] then 0 else
    var n := |log| - 1;
    LateAlerts(cfg, z, log[..n]) + (if AlertAt(cfg, z, log, n) && LateTypeError(log[n].o) then 1 else 0)
  }

  lemma AlertAtFront(cfg: Config, z: Serial, log: seq<Acquisition>, i: nat, n: nat)
    requires i < n <= |log|
    ensures AlertAt(cfg, z, log[..n], i) <==> AlertAt(cfg, z, log, i)
  {
    assert log[..n][..i] == log[..i];
  }

  /** Every alerted round is the round of an acquisition that sends. */
  lemma {:induction false} AlertOrigin(cfg: Config, z: Serial, log: seq<Acquisition>, r: Value) returns (i: nat)
    requires r in AlertRounds(cfg, z, log)
    ensures AlertAt(cfg, z, log, i) && RoundOfEvent(log[i].ev) == r
    decreases |log|
  {
    hide AlertAt;
    var n := |log| - 1;
    if AlertAt(cfg, z, log, n) && RoundOfEvent(log[n].ev) == r {
      i := n;
    } else {
      i := AlertOrigin(cfg, z, log[..n], r);
      assert i < |log[..n]| by { assert AlertAt(cfg, z, log[..n], i) ==> i < n by { AlertAtBound(cfg, z, log[..n], i); } }
      AlertAtFront(cfg, z, log, i, n);
    }
  }

  lemma AlertAtBound(cfg: Config, z: Serial, log: seq<Acquisition>, i: nat)
    requires AlertAt(cfg, z, log, i)
    ensures i < |log|
  {
  }

  /** No sending acquisition meets a late TypeError. */
  ghost predicate NoLateAlert(cfg: Config, z: Serial, log: seq<Acquisition>) {
    forall i: nat :: AlertAt(cfg, z, log, i) ==> !LateTypeError(log[i].o)
  }

  /** No alert is dispatched a second time exactly when no sending acquisition meets a late TypeError. */
  lemma {:induction false} NoLateAlertsIff(cfg: Config, z: Serial, log: seq<Acquisition>)
    ensures LateAlerts(cfg, z, log) == 0 <==> NoLateAlert(cfg, z, log)
    decreases |log|
  {
    hide LateTypeError, AlertAt;
    if log == [] {
      forall i: nat | AlertAt(cfg, z, log, i) ensures false { AlertAtBound(cfg, z, log, i); }
    } else {
      NoLateAlertsIff(cfg, z, log[..|log| - 1]);
      NoLateAlertStep(cfg, z, log);
    }
  }

  lemma NoLateAlertStep(cfg: Config, z: Serial, log: seq<Acquisition>)
    requires log != []
    ensures var n := |log| - 1;
            NoLateAlert(cfg, z, log) <==> NoLateAlert(cfg, z, log[..n]) && (AlertAt(cfg, z, log, n) ==> !LateTypeError(log[n].o))
  {
    var n := |log| - 1;
    forall i: nat | i < n ensures AlertAt(cfg, z, log[..n], i) <==> AlertAt(cfg, z, log, i) {
      AlertAtFront(cfg, z, log, i, n);
    }
    forall i: nat | AlertAt(cfg, z, log[..n], i) ensures i < n { AlertAtBound(cfg, z, log[..n], i); }
    forall i: nat | AlertAt(cfg, z, log, i) ensures i <= n { AlertAtBound(cfg, z, log, i); }
    hide LateTypeError, AlertAt;
    assert forall i :: 0 <= i < n ==> log[..n][i] == log[i];
  }

  /** Integers in strictly increasing order, all above `low` and none above `high`. */
  ghost predicate Increasing(rounds: seq<Value>, low: int, high: int) {
    && (forall i :: 0 <= i < |rounds| ==> rounds[i].Int? && low < rounds[i].n <= high)
    && (forall i, j :: 0 <= i < j < |rounds| ==> rounds[i].n < rounds[j].n)
  }

  ghost predicate IntegerRounds(log: seq<Acquisition>) {
    forall i :: 0 <= i < |log| ==> IntegerRound(log[i].ev)
  }

  /** However many history changes the plugin is given, with whatever guard errors and action failures,
      the rounds it alerts are strictly increasing and newer than the round it started from; and one message is
      dispatched for each, but for those repeated after a late TypeError. */
  lemma {:induction false} AlertsIncrease(cfg: Config, z: Serial, log: seq<Acquisition>, low: int) returns (high: int)
    requires IsOwnerAlert(cfg) && Watches(z.core, low) && IntegerRounds(log)
    ensures Watches(Replay(cfg, z, log).core, high) && low <= high
    ensures Increasing(AlertRounds(cfg, z, log), low, high)
    ensures Sends(Replay(cfg, z, log).effects) == Sends(z.effects) + |AlertRounds(cfg, z, log)| + LateAlerts(cfg, z, log)
    decreases |log|
  {
    hide Transition, IsOwnerAlert, Sends, LateTypeError;
    high := low;
    if log != [] {
      var front, a := log[..|log| - 1], log[|log| - 1];
      assert IntegerRounds(front);
      var middle := AlertsIncrease(cfg, z, front, low);
      var before := Replay(cfg, z, front);
      high := AlertStep(cfg, before.core, before.disk, a.ev, a.o, middle);
      SendsConcat(before.effects, Transition(cfg, before.core, before.disk, a.ev, a.o).effects);
    }
  }

  // ---------- The concurrent engine ----------

  /** A run of one process that never reloads its state file. */
  ghost predicate OneLife(steps: seq<Machine.Step>) {
    forall i :: 0 <= i < |steps| ==> !steps[i].Crash? && !steps[i].Reload?
  }

  ghost predicate ArrivalsAreIntegerRounds(steps: seq<Machine.Step>) {
    forall i :: 0 <= i < |steps| && steps[i].Arrive? ==> IntegerRound(steps[i].ev)
  }

  /** Every event in the machine, waiting or already taken up, has an integer round. */
  ghost predicate RoundsKept(s: Sys) {
    forall ev :: Carries(s, ev) ==> IntegerRound(ev)
  }

  lemma LifeStep(cfg: Config, s: Sys, step: Machine.Step)
    requires RoundsKept(s) && Enabled(cfg, s, step) && !step.Crash? && !step.Reload?
    requires step.Arrive? ==> IntegerRound(step.ev)
    ensures RoundsKept(Apply(cfg, s, step)) && Apply(cfg, s, step).base == s.base
  {
    StepKeepsBase(cfg, s, step);
    hide Apply, Enabled, Carries, IntegerRound;
    forall ev | Carries(Apply(cfg, s, step), ev) ensures IntegerRound(ev) {
      StepCarries(cfg, s, step, ev);
    }
  }

  lemma {:induction false} LifeKeeps(cfg: Config, s: Sys, steps: seq<Machine.Step>)
    requires RoundsKept(s) && Exec(cfg, s, steps).Some? && OneLife(steps) && ArrivalsAreIntegerRounds(steps)
    ensures RoundsKept(Exec(cfg, s, steps).value) && Exec(cfg, s, steps).value.base == s.base
    decreases |steps|
  {
    hide RoundsKept, Apply, IntegerRound;
    if steps != [] {
      LifeStep(cfg, s, steps[0]);
      LifeKeeps(cfg, Apply(cfg, s, steps[0]), steps[1..]);
    }
  }

  /** End to end: in any run of the concurrent engine within one process, with events arriving in any
      interleaving from anywhere, the rounds alerted are strictly increasing from above zero. Never more messages
      are dispatched than one for each of them and a second one for each late TypeError, and exactly so many
      whenever the lock is free: no round is alerted twice. */
  lemma NoRoundAlertedTwice(cfg: Config, disk: Disk, now: int, steps: seq<Machine.Step>) returns (high: int)
    requires IsOwnerAlert(cfg) && OneLife(steps) && ArrivalsAreIntegerRounds(steps)
    requires Exec(cfg, Init(cfg, disk, now), steps).Some?
    ensures var s := Exec(cfg, Init(cfg, disk, now), steps).value;
            var rounds, late := AlertRounds(cfg, s.base, s.log), LateAlerts(cfg, s.base, s.log);
            && Increasing(rounds, 0, high)
            && Sends(s.effects) <= |rounds| + late
            && (s.lock.None? ==> Sends(s.effects) == |rounds| + late && Watches(s.core, high))
  {
    hide Exec, Replay, AlertRounds, LateAlerts, Linear, Sends, IsOwnerAlert;
    var s0 := Init(cfg, disk, now);
    var s := Exec(cfg, s0, steps).value;
    LifeKeeps(cfg, s0, steps);
    InitKeepsInv(cfg, disk, now);
    RunKeepsInv(cfg, s0, steps);
    StartsWatching(cfg, disk, now);
    forall i | 0 <= i < |s.log| ensures IntegerRound(s.log[i].ev) { assert Carries(s, s.log[i].ev); }
    high := AlertsIncrease(cfg, s.base, s.log, 0);
    SendsSoFar(cfg, s);
    Linearizable(cfg, disk, now, steps);
    assert Sends([]) == 0 by { NothingSendsNothing(); }
  }

  lemma NothingSendsNothing()
    ensures Sends([]) == 0
  {
  }

  /** What was dispatched so far is no more than what the acquisitions will have dispatched. */
  lemma SendsSoFar(cfg: Config, s: Sys)
    requires Linear(cfg, s)
    ensures Sends(s.effects) <= Sends(Replay(cfg, s.base, s.log).effects)
  {
    hide Sends;
    var rest := EffectsToCome(cfg, s);
    SendsConcat(s.effects, rest);
  }

  lemma StartsWatching(cfg: Config, disk: Disk, now: int)
    requires IsOwnerAlert(cfg)
    ensures Watches(Init(cfg, disk, now).base.core, 0)
  {
  }

  /** The remembered round is one process's: the host does not restore the context, so a new process starts
      from zero again. */
  lemma CrashForgetsRounds(cfg: Config, s: Sys, now: int, cutsChar: bool)
    requires IsOwnerAlert(cfg)
    ensures Watches(Apply(cfg, s, Machine.Crash(now, cutsChar)).core, 0)
  {
  }
}
