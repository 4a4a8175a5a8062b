/** Printing abstract syntax back to text, and the round trip through the lexer and the parser. */
module Printer {
  import opened Text
  import opened Lexer
  import opened Grammar
  import opened Descent
  import opened Parser

  // ---------- The abstract syntax that some text denotes ----------

  predicate ProduciblePath(path: seq<string>) {
    && path != []
    && IsName(path[0])
    && (forall i :: 0 < i < |path| ==> IsPathElement(path[i]))
    && (forall i :: 0 <= i < |path| ==> IsLexeme(path[i]))
  }

  predicate ProducibleLiteral(v: Literal) {
    match v
    case LDecimal(text) => IsSignedDecimal(text)
    case LString(s) => '"' !in s || '\'' !in s
    case _ => true
  }

  predicate Producible(e: Expr) {
    match e
    case Lit(v) => ProducibleLiteral(v)
    case Variable(path) => ProduciblePath(path)
    case Function(name, args) =>
      IsName(name) && IsLexeme(name) && forall i :: 0 <= i < |args| ==> Producible(args[i])
    case Method(path, args) =>
      |path| >= 2 && ProduciblePath(path) && forall i :: 0 <= i < |args| ==> Producible(args[i])
    case Cmp(op, l, r) => IsComparison(op) && Producible(l) && Producible(r)
    case Logical(_, l, r) => Producible(l) && Producible(r)
    case Not(x) => Producible(x)
  }

  // ---------- Printing ----------

  function LiteralText(v: Literal): string {
    match v
    case LNull => "null"
    case LBool(b) => if b then "true" else "false"
    case LInt(n) => IntText(n)
    case LDecimal(text) => text
    case LString(s) => if '"' !in s then ['"'] + s + ['"'] else ['\''] + s + ['\'']
  }

  /** The derivation that spells `e`, with parentheses around every compound operand. */
  function Derive(e: Expr): (t: OrTree)
    requires Producible(e)
    ensures AstOr(t) == e
    decreases e, 1
  {
    match e
    case Logical(Or, l, r) => Either(OneAnd(Operand(l)), OneAnd(Operand(r)))
    case Logical(And, l, r) => OneOr(Both(OneNot(Operand(l)), OneNot(Operand(r))))
    case Not(x) => OneOr(Only(Bang(OneNot(Operand(x)))))
    case Cmp(op, l, r) => OneOr(Only(Related(Operand(l), op, Operand(r))))
    case _ => OneOr(OneAnd(Atom(e)))
  }

  function OneNot(p: Primary): (t: NotTree)
    ensures AstNot(t) == AstPrimary(p)
  {
    Plain(Bare(p))
  }

  function Only(n: NotTree): (t: AndTree)
    ensures AstAnd(t) == AstNot(n)
  {
    AndTree(n, AndEnd)
  }

  function Both(l: NotTree, r: NotTree): (t: AndTree)
    ensures AstAnd(t) == Logical(And, AstNot(l), AstNot(r))
  {
    assert FoldAnd(Logical(And, AstNot(l), AstNot(r)), AndEnd) == Logical(And, AstNot(l), AstNot(r));
    AndTree(l, AndNext(r, AndEnd))
  }

  function Related(l: Primary, op: Comparison, r: Primary): (t: NotTree)
    ensures AstNot(t) == Cmp(op, AstPrimary(l), AstPrimary(r))
  {
    assert AstCmp(Relation(l, op, r)) == Cmp(op, AstPrimary(l), AstPrimary(r));
    Plain(Relation(l, op, r))
  }

  function OneAnd(p: Primary): (t: AndTree)
    ensures AstAnd(t) == AstPrimary(p)
  {
    Only(OneNot(p))
  }

  function OneOr(a: AndTree): (t: OrTree)
    ensures AstOr(t) == AstAnd(a)
  {
    OrTree(a, OrEnd)
  }

  function Either(l: AndTree, r: AndTree): (t: OrTree)
    ensures AstOr(t) == Logical(Or, AstAnd(l), AstAnd(r))
  {
    assert FoldOr(Logical(Or, AstAnd(l), AstAnd(r)), OrEnd) == Logical(Or, AstAnd(l), AstAnd(r));
    OrTree(l, OrNext(r, OrEnd))
  }

  predicate IsAtom(e: Expr) {
    e.Lit? || e.Variable? || e.Function? || e.Method?
  }

  function Operand(e: Expr): (p: Primary)
    requires Producible(e)
    ensures AstPrimary(p) == e
    decreases e, 2
  {
    if IsAtom(e) then Atom(e) else Paren(Derive(e))
  }

  function Atom(e: Expr): (p: Primary)
    requires Producible(e) && IsAtom(e)
    ensures AstPrimary(p) == e
    decreases e, 0
  {
    match e
    case Lit(v) =>
      LiteralTextDenotes(v);
      LiteralPrimary(LiteralText(v))
    case Variable(path) =>
      assert path == [path[0]] + path[1..];
      VariablePath(path[0], Elements(path[1..]))
    case Function(name, args) =>
      FunctionCall(name, DeriveArgs(args))
    case Method(path, args) =>
      var n := |path| - 1;
      assert path == [path[0]] + (path[1..n] + [path[n]]);
      MethodCall(path[0], Elements(path[1..n]), path[n], DeriveArgs(args))
  }

  function Elements(path: seq<string>): (p: seq<PathElement>)
    requires forall i :: 0 <= i < |path| ==> IsPathElement(path[i])
    ensures p == path
  {
    if path == [] then [] else [path[0]] + Elements(path[1..])
  }

  function DeriveArgs(args: seq<Expr>): (a: Arguments)
    requires forall i :: 0 <= i < |args| ==> Producible(args[i])
    ensures AstArguments(a) == args
    decreases args, 3
  {
    if args == [] then NoArguments else SomeArguments(Derive(args[0]), DeriveArgsMore(args[1..]))
  }

  function DeriveArgsMore(args: seq<Expr>): (m: ArgumentsMore)
    requires forall i :: 0 <= i < |args| ==> Producible(args[i])
    ensures AstArgumentsMore(m) == args
    decreases args, 3
  {
    if args == [] then ArgumentsEnd else ArgumentsNext(Derive(args[0]), DeriveArgsMore(args[1..]))
  }

  /** The text of `e`: its tokens separated by blanks. */
  function Print(e: Expr): string
    requires Producible(e)
  {
    Join(YieldOr(Derive(e)), " ")
  }

  // ---------- Literals ----------

  lemma DigitsHaveNoDot(t: string)
    requires AllDigits(t)
    ensures !IsSignedDecimal(t)
  {
  }

  lemma IntTextIsNotDecimal(n: int)
    ensures !IsSignedDecimal(IntText(n)) && !IsReserved(IntText(n))
  {
    if n < 0 {
      assert IntText(n)[1..] == NatText(-n);
      DigitsHaveNoDot(NatText(-n));
    } else {
      DigitsHaveNoDot(NatText(n));
    }
  }

  lemma StringTextDenotes(s: string, q: char)
    requires q == '"' || q == '\''
    ensures LiteralOf([q] + s + [q]) == Some(LString(s))
  {
    hide IsDecimal, AllDigits;
    var t := [q] + s + [q];
    assert t[1..|t| - 1] == s;
    assert !IsSignedDecimal(t) by { NotDecimal(t); }
    assert !IsIntText(t) by { NotInteger(t); }
  }

  lemma NotDecimal(t: string)
    requires t != "" && (t[0] == '"' || t[0] == '\'')
    ensures !IsSignedDecimal(t)
  {
    assert forall i :: 0 < i < |t| ==> t[..i][0] == t[0];
  }

  lemma NotInteger(t: string)
    requires t != "" && (t[0] == '"' || t[0] == '\'')
    ensures !IsIntText(t)
  {
  }

  lemma LiteralTextDenotes(v: Literal)
    requires ProducibleLiteral(v)
    ensures LiteralOf(LiteralText(v)) == Some(v)
  {
    match v
    case LInt(n) =>
      hide NatText, NatValue;
      IntTextRoundTrip(n);
      IntTextIsNotDecimal(n);
    case LString(s) =>
      StringTextDenotes(s, if '"' !in s then '"' else '\'');
    case LDecimal(text) =>
    case _ =>
  }

  // ---------- Lexemes ----------

  lemma {:induction false} FirstMatchAt(s: string, from: nat, i: nat)
    requires from <= i < |ALTERNATIVES| && MatchLength(ALTERNATIVES[i], s) > 0
    requires forall b :: from <= b < i ==> MatchLength(ALTERNATIVES[b], s) == 0
    ensures FirstMatch(from, s) == MatchLength(ALTERNATIVES[i], s)
    decreases i - from
  {
    hide MatchLength;
    if from < i {
      FirstMatchAt(s, from + 1, i);
    }
  }

  lemma DecimalIsLexeme(t: string)
    requires IsDecimal(t)
    ensures DecimalLength(t) == |t|
  {
    DecimalLengthIsLongest(t);
    assert t[..|t|] == t;
  }

  lemma SignedDecimalIsLexeme(t: string)
    requires IsSignedDecimal(t)
    ensures IsLexeme(t)
  {
    if t[0] == '-' {
      DecimalIsLexeme(t[1..]);
      FirstMatchAt(t, 0, 0);
    } else {
      DecimalIsLexeme(t);
      FirstMatchAt(t, 0, 2);
    }
  }

  lemma IntTextIsLexeme(n: int)
    ensures IsLexeme(IntText(n))
  {
    var t := IntText(n);
    if n < 0 {
      assert t[1..] == NatText(-n);
      SpanIs(t[1..], IsDigit, |t| - 1);
      FirstMatchAt(t, 0, 1);
    } else {
      SpanIs(t, IsDigit, |t|);
      FirstMatchAt(t, 0, 3);
    }
  }

  lemma QuoteIsNoNumber(t: string, b: nat)
    requires t != "" && (t[0] == '"' || t[0] == '\'') && b < 4
    ensures MatchLength(ALTERNATIVES[b], t) == 0
  {
  }

  lemma QuotedIsLexeme(s: string, q: char)
    requires (q == '"' || q == '\'') && q !in s
    ensures IsLexeme([q] + s + [q])
  {
    hide FirstMatch;
    var t := [q] + s + [q];
    assert t[1..] == s + [q];
    SpanIs(s + [q], c => c != q, |s|);
    assert MatchLength(Quoted(q), t) == |t|;
    hide MatchLength;
    forall b | 0 <= b < 4 { QuoteIsNoNumber(t, b); }
    if q == '\'' {
      OtherQuote(t);
    }
    FirstMatchAt(t, 0, if q == '"' then 4 else 5);
  }

  lemma OtherQuote(t: string)
    requires t != "" && t[0] == '\''
    ensures MatchLength(ALTERNATIVES[4], t) == 0
  {
  }

  /** Text that starts like neither a number nor a quotation. */
  predicate StartsPlain(t: string) {
    t != "" && !IsDigit(t[0]) && t[0] != '-' && t[0] != '"' && t[0] != '\'' && !IsSpace(t[0])
  }

  lemma WordIsLexeme(t: string)
    requires t != "" && IsIdentStart(t[0]) && All(t, IsWordChar)
    ensures IsLexeme(t)
  {
    SpanIs(t, IsWordChar, |t|);
    FirstMatchAt(t, 0, 20);
  }

  lemma MarkIsLexeme(i: nat)
    requires 6 <= i < 20 && StartsPlain(ALTERNATIVES[i].text)
    requires forall b :: 6 <= b < i ==> !(ALTERNATIVES[b].text <= ALTERNATIVES[i].text)
    ensures IsLexeme(ALTERNATIVES[i].text)
  {
    FirstMatchAt(ALTERNATIVES[i].text, 0, i);
  }

  lemma MarksAreLexemes()
    ensures forall i :: 6 <= i < 20 ==> IsLexeme(ALTERNATIVES[i].text)
  {
    forall i | 6 <= i < 20 { MarkIsLexeme(i); }
  }

  lemma ComparisonIsLexeme(op: string)
    requires IsComparison(op)
    ensures IsLexeme(op)
  {
    hide IsLexeme;
    var i := if op == "==" then 6 else if op == "!=" then 7 else if op == ">=" then 8
             else if op == "<=" then 9 else if op == ">" then 13 else 14;
    assert ALTERNATIVES[i] == Fixed(op);
    MarksAreLexemes();
  }

  lemma PunctuationIsLexemes()
    ensures IsLexeme("(") && IsLexeme(")") && IsLexeme(",") && IsLexeme(".") && IsLexeme("!")
    ensures IsLexeme("&&") && IsLexeme("||")
  {
    hide IsLexeme;
    MarksAreLexemes();
    var a := ALTERNATIVES;
    assert a[10].text == "&&" && a[11].text == "||" && a[12].text == "!";
    assert a[15].text == "(" && a[16].text == ")" && a[17].text == "," && a[18].text == ".";
  }

  lemma LiteralTextIsLexeme(v: Literal)
    requires ProducibleLiteral(v)
    ensures IsLexeme(LiteralText(v))
  {
    match v
    case LInt(n) => IntTextIsLexeme(n);
    case LDecimal(text) => SignedDecimalIsLexeme(text);
    case LString(s) => QuotedIsLexeme(s, if '"' !in s then '"' else '\'');
    case _ => WordIsLexeme(LiteralText(v));
  }

  ghost predicate Lexemes(ts: seq<string>) {
    forall i :: 0 <= i < |ts| ==> IsLexeme(ts[i])
  }

  // ---------- Printed derivations consist of lexemes ----------

  lemma LexemesConcat(a: seq<string>, b: seq<string>)
    requires Lexemes(a) && Lexemes(b)
    ensures Lexemes(a + b)
  {
  }

  lemma {:induction false} YieldOne(p: Primary)
    ensures YieldNot(OneNot(p)) == YieldPrimary(p)
    ensures YieldAnd(OneAnd(p)) == YieldPrimary(p)
    ensures YieldOr(OneOr(OneAnd(p))) == YieldPrimary(p)
  {
    assert YieldCmp(Bare(p)) == YieldPrimary(p);
    assert YieldPrimary(p) + [] == YieldPrimary(p);
  }

  lemma {:induction false} YieldSingle(n: NotTree)
    ensures YieldOr(OneOr(Only(n))) == YieldNot(n)
  {
    assert YieldNot(n) + [] == YieldNot(n);
    assert YieldAnd(Only(n)) == YieldNot(n);
  }

  lemma {:induction false} PrintedLexemes(e: Expr)
    requires Producible(e)
    ensures Lexemes(YieldOr(Derive(e)))
    decreases e, 1
  {
    PunctuationIsLexemes();
    match e
    case Logical(Or, l, r) =>
      OperandLexemes(l);
      OperandLexemes(r);
      EitherLexemes(Operand(l), Operand(r));
    case Logical(And, l, r) =>
      OperandLexemes(l);
      OperandLexemes(r);
      BothLexemes(Operand(l), Operand(r));
    case Not(x) =>
      OperandLexemes(x);
      YieldOne(Operand(x));
      YieldSingle(Bang(OneNot(Operand(x))));
    case Cmp(op, l, r) =>
      OperandLexemes(l);
      OperandLexemes(r);
      ComparisonIsLexeme(op);
      YieldSingle(Related(Operand(l), op, Operand(r)));
      assert YieldCmp(Relation(Operand(l), op, Operand(r)))
          == YieldPrimary(Operand(l)) + ([op] + YieldPrimary(Operand(r)));
    case _ =>
      AtomLexemes(e);
      YieldOne(Atom(e));
  }

  lemma {:induction false} EitherLexemes(l: Primary, r: Primary)
    requires Lexemes(YieldPrimary(l)) && Lexemes(YieldPrimary(r))
    ensures Lexemes(YieldOr(Either(OneAnd(l), OneAnd(r))))
  {
    PunctuationIsLexemes();
    YieldOne(l);
    YieldOne(r);
    hide YieldPrimary;
    assert YieldOrMore(OrNext(OneAnd(r), OrEnd)) == ["||"] + YieldPrimary(r);
  }

  lemma {:induction false} BothLexemes(l: Primary, r: Primary)
    requires Lexemes(YieldPrimary(l)) && Lexemes(YieldPrimary(r))
    ensures Lexemes(YieldOr(OneOr(Both(OneNot(l), OneNot(r)))))
  {
    PunctuationIsLexemes();
    YieldOne(l);
    YieldOne(r);
    hide YieldPrimary;
    assert YieldAndMore(AndNext(OneNot(r), AndEnd)) == ["&&"] + YieldPrimary(r);
  }

  lemma {:induction false} OperandLexemes(e: Expr)
    requires Producible(e)
    ensures Lexemes(YieldPrimary(Operand(e)))
    decreases e, 2
  {
    if IsAtom(e) {
      AtomLexemes(e);
    } else {
      PrintedLexemes(e);
      PunctuationIsLexemes();
    }
  }

  lemma {:induction false} AtomLexemes(e: Expr)
    requires Producible(e) && IsAtom(e)
    ensures Lexemes(YieldPrimary(Atom(e)))
    decreases e, 0
  {
    match e
    case Lit(v) => LiteralTextIsLexeme(v);
    case Variable(path) =>
      PathLexemes(Elements(path[1..]));
      LexemesConcat([path[0]], YieldPath(Elements(path[1..])));
    case Function(name, args) =>
      ArgsLexemes(args);
      CallLexemes(YieldArguments(DeriveArgs(args)));
      LexemesConcat([name], ["("] + (YieldArguments(DeriveArgs(args)) + [")"]));
    case Method(path, args) =>
      ArgsLexemes(args);
      MethodLexemes(path, DeriveArgs(args));
  }

  lemma CallLexemes(args: seq<string>)
    requires Lexemes(args)
    ensures Lexemes(["("] + (args + [")"]))
  {
    PunctuationIsLexemes();
  }

  lemma {:induction false} MethodLexemes(path: seq<string>, args: Arguments)
    requires |path| >= 2 && ProduciblePath(path) && Lexemes(YieldArguments(args))
    ensures var n := |path| - 1;
            Lexemes(YieldPrimary(MethodCall(path[0], Elements(path[1..n]), path[n], args)))
  {
    var n := |path| - 1;
    var rest := Elements(path[1..n]) + [path[n]];
    assert rest == path[1..];
    PathLexemes(rest);
    CallLexemes(YieldArguments(args));
    LexemesConcat(YieldPath(rest), ["("] + (YieldArguments(args) + [")"]));
    LexemesConcat([path[0]], YieldPath(rest) + (["("] + (YieldArguments(args) + [")"])));
  }

  lemma {:induction false} PathLexemes(path: seq<PathElement>)
    requires Lexemes(path)
    ensures Lexemes(YieldPath(path))
  {
    if path != [] {
      PunctuationIsLexemes();
      PathLexemes(path[1..]);
    }
  }

  lemma {:induction false} ArgsLexemes(args: seq<Expr>)
    requires forall i :: 0 <= i < |args| ==> Producible(args[i])
    ensures Lexemes(YieldArguments(DeriveArgs(args)))
    decreases args, 3
  {
    if args != [] {
      PrintedLexemes(args[0]);
      ArgsMoreLexemes(args[1..]);
    }
  }

  lemma {:induction false} ArgsMoreLexemes(args: seq<Expr>)
    requires forall i :: 0 <= i < |args| ==> Producible(args[i])
    ensures Lexemes(YieldArgumentsMore(DeriveArgsMore(args)))
    decreases args, 3
  {
    if args != [] {
      PunctuationIsLexemes();
      PrintedLexemes(args[0]);
      ArgsMoreLexemes(args[1..]);
      LexemesConcat(YieldOr(Derive(args[0])), YieldArgumentsMore(DeriveArgsMore(args[1..])));
    }
  }

  /** Printing, lexing and parsing an expression gives the expression back. */
  lemma RoundTrip(e: Expr)
    requires Producible(e)
    ensures Parse(Print(e)) == Some(e)
  {
    var t := Derive(e);
    PrintedLexemes(e);
    LexJoin(YieldOr(t));
    DerivationIff(YieldOr(t), t);
  }

  /** It does so however the tokens are spaced. */
  lemma RoundTripSpread(e: Expr, gaps: seq<string>)
    requires Producible(e) && |gaps| == |YieldOr(Derive(e))| + 1 && Separates(gaps)
    ensures Parse(Spread(YieldOr(Derive(e)), gaps)) == Some(e)
  {
    var t := Derive(e);
    PrintedLexemes(e);
    LexSpread(YieldOr(t), gaps);
    DerivationIff(YieldOr(t), t);
  }

  // ---------- What the parser returns is producible ----------

  /** A lexeme that the parser unquotes is a quotation of one kind, so its text lacks that quote. */
  lemma UnquotedLacksQuote(t: string)
    requires IsLexeme(t) && Unquoted(t).Some?
    ensures '"' !in Unquoted(t).value || '\'' !in Unquoted(t).value
  {
    MunchIsFirstLongestMatch(t, |t|);
    var i: nat :| DecidedBy(t, |t|, i);
    assert t[..|t|] == t;
    QuoteLanguage(i, t);
  }

  lemma QuoteLanguage(i: nat, t: string)
    requires i < |ALTERNATIVES| && InLanguage(ALTERNATIVES[i], t)
    requires t[0] == '"' || t[0] == '\''
    ensures IsQuoted(t, t[0])
  {
  }

  lemma {:induction false} OrProducible(t: OrTree)
    requires Lexemes(YieldOr(t))
    ensures Producible(AstOr(t))
    decreases t
  {
    assert YieldOr(t) == YieldAnd(t.first) + YieldOrMore(t.more);
    LexemesSplit(YieldAnd(t.first), YieldOrMore(t.more));
    AndProducible(t.first);
    FoldOrProducible(AstAnd(t.first), t.more);
  }

  lemma LexemesSplit(a: seq<string>, b: seq<string>)
    requires Lexemes(a + b)
    ensures Lexemes(a) && Lexemes(b)
  {
    forall i | 0 <= i < |a| ensures IsLexeme(a[i]) {
      assert (a + b)[i] == a[i];
    }
    forall i | 0 <= i < |b| ensures IsLexeme(b[i]) {
      assert (a + b)[|a| + i] == b[i];
    }
  }

  lemma {:induction false} FoldOrProducible(lhs: Expr, m: OrMore)
    requires Producible(lhs) && Lexemes(YieldOrMore(m))
    ensures Producible(FoldOr(lhs, m))
    decreases m
  {
    if m.OrNext? {
      LexemesSplit(["||"], YieldAnd(m.rhs) + YieldOrMore(m.more));
      LexemesSplit(YieldAnd(m.rhs), YieldOrMore(m.more));
      AndProducible(m.rhs);
      FoldOrProducible(Logical(Or, lhs, AstAnd(m.rhs)), m.more);
    }
  }

  lemma {:induction false} AndProducible(t: AndTree)
    requires Lexemes(YieldAnd(t))
    ensures Producible(AstAnd(t))
    decreases t
  {
    LexemesSplit(YieldNot(t.first), YieldAndMore(t.more));
    NotProducible(t.first);
    FoldAndProducible(AstNot(t.first), t.more);
  }

  lemma {:induction false} FoldAndProducible(lhs: Expr, m: AndMore)
    requires Producible(lhs) && Lexemes(YieldAndMore(m))
    ensures Producible(FoldAnd(lhs, m))
    decreases m
  {
    if m.AndNext? {
      LexemesSplit(["&&"], YieldNot(m.rhs) + YieldAndMore(m.more));
      LexemesSplit(YieldNot(m.rhs), YieldAndMore(m.more));
      NotProducible(m.rhs);
      FoldAndProducible(Logical(And, lhs, AstNot(m.rhs)), m.more);
    }
  }

  lemma {:induction false} NotProducible(t: NotTree)
    requires Lexemes(YieldNot(t))
    ensures Producible(AstNot(t))
    decreases t
  {
    match t
    case Bang(inner) =>
      LexemesSplit(["!"], YieldNot(inner));
      NotProducible(inner);
    case Plain(Bare(p)) =>
      assert YieldCmp(Bare(p)) == YieldPrimary(p);
      PrimaryProducible(p);
    case Plain(Relation(l, op, r)) =>
      assert YieldNot(t) == YieldPrimary(l) + ([op] + YieldPrimary(r));
      LexemesSplit(YieldPrimary(l), [op] + YieldPrimary(r));
      LexemesSplit([op], YieldPrimary(r));
      PrimaryProducible(l);
      PrimaryProducible(r);
  }

  lemma {:induction false} PrimaryProducible(p: Primary)
    requires Lexemes(YieldPrimary(p))
    ensures Producible(AstPrimary(p))
    decreases p
  {
    match p
    case Paren(inner) =>
      LexemesSplit(["("], YieldOr(inner) + [")"]);
      LexemesSplit(YieldOr(inner), [")"]);
      OrProducible(inner);
    case LiteralPrimary(t) =>
      assert IsLexeme(YieldPrimary(p)[0]);
      if LiteralOf(t).value.LString? {
        UnquotedLacksQuote(t);
      }
    case VariablePath(first, rest) =>
      LexemesSplit([first], YieldPath(rest));
      PathProducible(first, rest);
    case FunctionCall(name, args) =>
      assert IsLexeme(YieldPrimary(p)[0]);
      LexemesSplit([name], ["("] + (YieldArguments(args) + [")"]));
      CallProducible(args);
    case MethodCall(first, rest, last, args) =>
      var call := ["("] + (YieldArguments(args) + [")"]);
      LexemesSplit([first], YieldPath(rest + [last]) + call);
      LexemesSplit(YieldPath(rest + [last]), call);
      PathProducible(first, rest + [last]);
      CallProducible(args);
  }

  lemma {:induction false} PathProducible(first: Name, rest: seq<PathElement>)
    requires Lexemes([first]) && Lexemes(YieldPath(rest))
    ensures ProduciblePath([first] + rest)
  {
    assert IsLexeme([first][0]);
    PathElementsAreLexemes(rest);
  }

  lemma {:induction false} PathElementsAreLexemes(rest: seq<PathElement>)
    requires Lexemes(YieldPath(rest))
    ensures Lexemes(rest)
  {
    if rest != [] {
      var y := YieldPath(rest);
      assert y == [".", rest[0]] + YieldPath(rest[1..]);
      assert IsLexeme(y[1]);
      LexemesSplit([".", rest[0]], YieldPath(rest[1..]));
      PathElementsAreLexemes(rest[1..]);
    }
  }

  lemma {:induction false} CallProducible(a: Arguments)
    requires Lexemes(["("] + (YieldArguments(a) + [")"]))
    ensures forall i :: 0 <= i < |AstArguments(a)| ==> Producible(AstArguments(a)[i])
    decreases a, 1
  {
    LexemesSplit(["("], YieldArguments(a) + [")"]);
    LexemesSplit(YieldArguments(a), [")"]);
    if a.SomeArguments? {
      LexemesSplit(YieldOr(a.first), YieldArgumentsMore(a.more));
      OrProducible(a.first);
      ArgumentsProducible(a.more);
    }
  }

  lemma {:induction false} ArgumentsProducible(m: ArgumentsMore)
    requires Lexemes(YieldArgumentsMore(m))
    ensures forall i :: 0 <= i < |AstArgumentsMore(m)| ==> Producible(AstArgumentsMore(m)[i])
    decreases m
  {
    if m.ArgumentsNext? {
      LexemesSplit([","], YieldOr(m.arg) + YieldArgumentsMore(m.more));
      LexemesSplit(YieldOr(m.arg), YieldArgumentsMore(m.more));
      OrProducible(m.arg);
      ArgumentsProducible(m.more);
    }
  }

  /** Whatever text the parser accepts, its syntax prints to text that parses to the same syntax. */
  lemma ParsePrintParse(s: string)
    requires Parse(s).Some?
    ensures Producible(Parse(s).value) && Parse(Print(Parse(s).value)) == Parse(s)
  {
    var ts := Lex(s).value;
    LexYieldsLexemes(s);
    DerivationIff(ts, Derivation(ts).value);
    OrProducible(Derivation(ts).value);
    RoundTrip(Parse(s).value);
  }

  /** The image of the parser: exactly the producible expressions are denoted by some text. */
  lemma ProducibleIffParsed(e: Expr)
    ensures Producible(e) <==> exists s :: Parse(s) == Some(e)
  {
    if Producible(e) {
      RoundTrip(e);
    }
    forall s | Parse(s) == Some(e) { ParsePrintParse(s); }
  }
}
