/** The recursive-descent parser of core/expression.py as it is written: one object with a mutable
    position, proved to compute the reference descent. */
module Parser {
  import opened Text
  import opened Lexer
  import opened Grammar
  import opened Descent

  /** The meaning of `parse`: lex, derive, and take the abstract syntax. `None` is ExpressionError. */
  function Parse(expr: string): Option<Expr> {
    var tokens :- Lex(expr);
    ParseTokens(tokens)
  }

  function ParseTokens(tokens: seq<string>): Option<Expr> {
    var t :- Derivation(tokens);
    Some(AstOr(t))
  }

  /** What is left of a left-associative chain, applied to the operand read so far. */
  function ExtendOr(lhs: Expr, rest: Parsed<OrMore>): Parsed<Expr> {
    match rest
    case Fail => Fail
    case Got(m, end) => Got(FoldOr(lhs, m), end)
  }

  function ExtendAnd(lhs: Expr, rest: Parsed<AndMore>): Parsed<Expr> {
    match rest
    case Fail => Fail
    case Got(m, end) => Got(FoldAnd(lhs, m), end)
  }

  function ExtendArgs(args: seq<Expr>, rest: Parsed<ArgumentsMore>): Parsed<seq<Expr>> {
    match rest
    case Fail => Fail
    case Got(m, end) => Got(args + AstArgumentsMore(m), end)
  }

  function ExtendPath(path: seq<string>, rest: Parsed<seq<PathElement>>): Parsed<seq<string>> {
    match rest
    case Fail => Fail
    case Got(p, end) => Got(path + p, end)
  }

  class ParserState {
    const tokens: seq<string>
    var pos: nat

    constructor (tokens: seq<string>)
      ensures this.tokens == tokens && pos == 0
    {
      this.tokens := tokens;
      pos := 0;
    }

    function Peek(): Option<string>
      reads this
    {
      if pos < |tokens| then Some(tokens[pos]) else None
    }

    method Eat(expected: string) returns (ok: bool)
      requires pos <= |tokens|
      modifies this
      ensures ok == At(tokens, old(pos), expected)
      ensures pos == if ok then old(pos) + 1 else old(pos)
    {
      ok := Peek() == Some(expected);
      if ok {
        pos := pos + 1;
      }
    }

    method ParseExpr() returns (r: Option<Expr>)
      requires pos == 0
      modifies this
      ensures r == ParseTokens(tokens)
    {
      r := ParseOr();
      if r.Some? && pos < |tokens| {
        r := None;
      }
    }

    method ParseOr() returns (r: Option<Expr>)
      requires pos <= |tokens|
      modifies this
      ensures pos <= |tokens|
      ensures match Ors(tokens, old(pos))
              case Fail => r.None?
              case Got(t, end) => r == Some(AstOr(t)) && pos == end
      decreases |tokens| - pos, 6
    {
      var lhs :- ParseAnd();
      ghost var goal := ExtendOr(lhs, OrRest(tokens, pos));
      while Peek() == Some("||")
        invariant old(pos) < pos <= |tokens|
        invariant goal == ExtendOr(lhs, OrRest(tokens, pos))
        decreases |tokens| - pos
      {
        pos := pos + 1;
        var rhs :- ParseAnd();
        lhs := Logical(Or, lhs, rhs);
      }
      return Some(lhs);
    }

    method ParseAnd() returns (r: Option<Expr>)
      requires pos <= |tokens|
      modifies this
      ensures pos <= |tokens|
      ensures match Ands(tokens, old(pos))
              case Fail => r.None?
              case Got(t, end) => r == Some(AstAnd(t)) && pos == end
      decreases |tokens| - pos, 5
    {
      var lhs :- ParseNot();
      ghost var goal := ExtendAnd(lhs, AndRest(tokens, pos));
      while Peek() == Some("&&")
        invariant old(pos) < pos <= |tokens|
        invariant goal == ExtendAnd(lhs, AndRest(tokens, pos))
        decreases |tokens| - pos
      {
        pos := pos + 1;
        var rhs :- ParseNot();
        lhs := Logical(And, lhs, rhs);
      }
      return Some(lhs);
    }

    method ParseNot() returns (r: Option<Expr>)
      requires pos <= |tokens|
      modifies this
      ensures pos <= |tokens|
      ensures match Nots(tokens, old(pos))
              case Fail => r.None?
              case Got(t, end) => r == Some(AstNot(t)) && pos == end
      decreases |tokens| - pos, 4
    {
      if Peek() == Some("!") {
        pos := pos + 1;
        var inner :- ParseNot();
        return Some(Not(inner));
      }
      r := ParseCmp();
    }

    method ParseCmp() returns (r: Option<Expr>)
      requires pos <= |tokens|
      modifies this
      ensures pos <= |tokens|
      ensures match Cmps(tokens, old(pos))
              case Fail => r.None?
              case Got(t, end) => r == Some(AstCmp(t)) && pos == end
      decreases |tokens| - pos, 3
    {
      var lhs :- ParsePrimary();
      var tok := Peek();
      if tok.Some? && IsComparison(tok.value) {
        pos := pos + 1;
        var rhs :- ParsePrimary();
        return Some(Cmp(tok.value, lhs, rhs));
      }
      return Some(lhs);
    }

    method ParsePrimary() returns (r: Option<Expr>)
      requires pos <= |tokens|
      modifies this
      ensures pos <= |tokens|
      ensures match Primaries(tokens, old(pos))
              case Fail => r.None?
              case Got(t, end) => r == Some(AstPrimary(t)) && pos == end
      decreases |tokens| - pos, 2
    {
      var tok :- Peek();
      if tok == "(" {
        pos := pos + 1;
        var node :- ParseOr();
        var closed := Eat(")");
        return if closed then Some(node) else None;
      }
      if tok == "$" || (tok != "" && IsIdentStart(tok[0])) {
        r := ParseVariableOrCall();
      } else {
        r := ParseLiteral();
      }
    }

    method ParseVariableOrCall() returns (r: Option<Expr>)
      requires pos < |tokens|
      requires tokens[pos] == "$" || (tokens[pos] != "" && IsIdentStart(tokens[pos][0]))
      modifies this
      ensures pos <= |tokens|
      ensures match Primaries(tokens, old(pos))
              case Fail => r.None?
              case Got(t, end) => r == Some(AstPrimary(t)) && pos == end
      decreases |tokens| - pos, 1
    {
      var name := tokens[pos];
      if IsReserved(name) {
        r := ParseLiteral();
        return;
      }
      NamedPrimary(tokens, pos);
      hide Primaries;
      pos := pos + 1;
      r := ParseAfterName(name);
    }

    /** The rest of a function call, a path or a method call, once its first name is read. */
    method ParseAfterName(name: Name) returns (r: Option<Expr>)
      requires 0 < pos <= |tokens| && tokens[pos - 1] == name
      modifies this
      ensures pos <= |tokens|
      ensures match AfterName(tokens, old(pos) - 1)
              case Fail => r.None?
              case Got(t, end) => r == Some(AstPrimary(t)) && pos == end
      decreases |tokens| - pos, 1
    {
      hide Args, PathRest;
      if Peek() == Some("(") {
        pos := pos + 1;
        var args :- ParseArguments();
        return Some(Function(name, args));
      }
      ghost var rest := PathRest(tokens, pos);
      var path :- ParsePath(name);
      hide AfterPath;
      r := ParseAfterPath(name, path, rest.tree);
    }

    /** The rest of a path: a method call, or nothing. */
    method ParseAfterPath(name: Name, path: seq<string>, ghost rest: seq<PathElement>) returns (r: Option<Expr>)
      requires pos <= |tokens| && path == [name] + rest && (At(tokens, pos, "(") ==> rest != [])
      modifies this
      ensures pos <= |tokens|
      ensures match AfterPath(tokens, name, rest, old(pos))
              case Fail => r.None?
              case Got(t, end) => r == Some(AstPrimary(t)) && pos == end
      decreases |tokens| - pos, 0
    {
      hide Args;
      if Peek() == Some("(") {
        assert rest[..|rest| - 1] + [rest[|rest| - 1]] == rest;
        pos := pos + 1;
        var args :- ParseArguments();
        return Some(Method(path, args));
      }
      return Some(Variable(path));
    }

    /** The dotted elements after the first name of a path. */
    method ParsePath(name: string) returns (r: Option<seq<string>>)
      requires pos <= |tokens|
      modifies this
      ensures old(pos) <= pos <= |tokens|
      ensures match PathRest(tokens, old(pos))
              case Fail => r.None?
              case Got(rest, end) => r == Some([name] + rest) && pos == end
      decreases |tokens| - pos, 0
    {
      var path := [name];
      ghost var goal := ExtendPath(path, PathRest(tokens, pos));
      while Peek() == Some(".")
        invariant old(pos) <= pos <= |tokens|
        invariant goal == ExtendPath(path, PathRest(tokens, pos))
        decreases |tokens| - pos
      {
        pos := pos + 1;
        var next :- Peek();
        if !IsPathElement(next) {
          return None;
        }
        PathStep(path, next, PathRest(tokens, pos + 1));
        path := path + [next];
        pos := pos + 1;
      }
      assert path + [] == path;
      return Some(path);
    }

    /** The argument list, after its opening parenthesis. */
    method ParseArguments() returns (r: Option<seq<Expr>>)
      requires pos <= |tokens|
      modifies this
      ensures pos <= |tokens|
      ensures match Args(tokens, old(pos))
              case Fail => r.None?
              case Got(t, end) => r == Some(AstArguments(t)) && pos == end
      decreases |tokens| - pos, 7
    {
      var args: seq<Expr> := [];
      ArgsAre(tokens, pos);
      hide Ors, Args;
      if Peek() != Some(")") {
        var first :- ParseOr();
        args := [first];
        ghost var goal := ExtendArgs(args, ArgsRest(tokens, pos));
        while Peek() == Some(",")
          invariant old(pos) < pos <= |tokens|
          invariant goal == ExtendArgs(args, ArgsRest(tokens, pos))
          decreases |tokens| - pos
        {
          pos := pos + 1;
          var arg :- ParseOr();
          ArgsStep(args, arg, ArgsRest(tokens, pos));
          args := args + [arg];
        }
        assert args + [] == args;
      }
      var closed := Eat(")");
      return if closed then Some(args) else None;
    }

    method ParseLiteral() returns (r: Option<Expr>)
      requires pos < |tokens|
      modifies this
      ensures pos == old(pos) + 1
      ensures r == match LiteralOf(tokens[old(pos)]) case None => None case Some(v) => Some(Lit(v))
    {
      var tok := tokens[pos];
      pos := pos + 1;
      if tok == "true" || tok == "false" {
        return Some(Lit(LBool(tok == "true")));
      }
      if tok == "null" {
        return Some(Lit(LNull));
      }
      if IsSignedDecimal(tok) {
        return Some(Lit(LDecimal(tok)));
      }
      if IsIntText(tok) {
        return Some(Lit(LInt(IntValue(tok))));
      }
      var text :- Unquoted(tok);
      return Some(Lit(LString(text)));
    }
  }

  /** A primary that starts with a name: what comes after the name decides which one it is. */
  function AfterName(ts: Tokens, i: nat): Parsed<Primary>
    requires i < |ts| && IsName(ts[i])
  {
    if At(ts, i + 1, "(") then
      match Args(ts, i + 2)
      case Fail => Fail
      case Got(args, j) => Got(FunctionCall(ts[i], args), j)
    else
      match PathRest(ts, i + 1)
      case Fail => Fail
      case Got(rest, j) => AfterPath(ts, ts[i], rest, j)
  }

  function AfterPath(ts: Tokens, name: Name, rest: seq<PathElement>, j: nat): Parsed<Primary>
    requires j <= |ts|
  {
    if !At(ts, j, "(") then Got(VariablePath(name, rest), j)
    else if rest == [] then Fail
    else
      match Args(ts, j + 1)
      case Fail => Fail
      case Got(args, k) => Got(MethodCall(name, rest[..|rest| - 1], rest[|rest| - 1], args), k)
  }

  lemma NamedPrimary(ts: Tokens, i: nat)
    requires i < |ts| && IsName(ts[i])
    ensures Primaries(ts, i) == AfterName(ts, i)
  {
    hide Args;
  }

  lemma ArgsAre(ts: Tokens, i: nat)
    requires i <= |ts|
    ensures Args(ts, i) == if At(ts, i, ")") then Got(NoArguments, i + 1) else AfterFirst(ts, Ors(ts, i))
  {
    hide Ors, ArgsRest;
  }

  /** The argument list after its first argument. */
  function AfterFirst(ts: Tokens, first: Parsed<OrTree>): Parsed<Arguments>
    requires first.Got? ==> first.end <= |ts|
  {
    match first
    case Fail => Fail
    case Got(t, j) =>
      match ArgsRest(ts, j)
      case Fail => Fail
      case Got(more, k) => if At(ts, k, ")") then Got(SomeArguments(t, more), k + 1) else Fail
  }

  lemma PathStep(path: seq<string>, next: PathElement, rest: Parsed<seq<PathElement>>)
    ensures rest.Got? ==> (path + [next]) + rest.tree == path + ([next] + rest.tree)
  {
  }

  lemma ArgsStep(args: seq<Expr>, arg: Expr, rest: Parsed<ArgumentsMore>)
    ensures rest.Got? ==> (args + [arg]) + AstArgumentsMore(rest.tree) == args + ([arg] + AstArgumentsMore(rest.tree))
  {
  }

  /** `parse` of core/expression.py: tokenize, then run a fresh parser over the tokens. */
  method ParseText(expr: string) returns (r: Option<Expr>)
    ensures r == Parse(expr)
  {
    var tokens :- Tokenize(expr);
    var parser := new ParserState(tokens);
    r := parser.ParseExpr();
  }

  // ---------- What acceptance means ----------

  /** The parser returns `e` exactly when the tokens are a sentence whose derivation stands for `e`. */
  lemma ParseTokensIff(ts: seq<string>, e: Expr)
    ensures ParseTokens(ts) == Some(e) <==> exists t :: YieldOr(t) == ts && AstOr(t) == e
  {
    if ParseTokens(ts) == Some(e) {
      DerivationIff(ts, Derivation(ts).value);
    }
    forall t | YieldOr(t) == ts { DerivationIff(ts, t); }
  }

  // ---------- The rules on tokens ----------

  /** An identifier, spelled out: a letter or underscore first, and none of the three reserved words. */
  predicate IsPlainName(x: string) {
    x != "" && (x[0] in LOWER_CASE || x[0] in UPPER_CASE || x[0] == '_') && x != "true" && x != "false" && x != "null"
  }

  lemma PlainIsName(x: string)
    requires IsPlainName(x)
    ensures IsName(x) && x != "(" && x != "!" && x != ")" && !IsComparison(x)
  {
    ClassesAreListed(x[0]);
    hide LOWER_CASE, UPPER_CASE;
  }

  function Var(x: string): Expr {
    Variable([x])
  }

  /** A name that is neither called nor followed by a dot is a variable. */
  lemma NameAt(ts: Tokens, i: nat)
    requires i < |ts| && IsPlainName(ts[i]) && !At(ts, i + 1, "(") && !At(ts, i + 1, ".")
    ensures Primaries(ts, i) == Got(VariablePath(ts[i], []), i + 1)
    ensures AstPrimary(VariablePath(ts[i], [])) == Var(ts[i])
  {
    PlainIsName(ts[i]);
    hide IsPlainName, IsName;
    assert [ts[i]] + [] == [ts[i]];
  }

  lemma OperandAt(ts: Tokens, i: nat)
    requires i < |ts| && IsPlainName(ts[i]) && !At(ts, i + 1, "(") && !At(ts, i + 1, ".")
    requires i + 1 < |ts| ==> !IsComparison(ts[i + 1])
    ensures Nots(ts, i) == Got(Plain(Bare(VariablePath(ts[i], []))), i + 1)
    ensures AstNot(Plain(Bare(VariablePath(ts[i], [])))) == Var(ts[i])
  {
    PlainIsName(ts[i]);
    NameAt(ts, i);
    hide Primaries, IsPlainName;
  }

  // One, two and three operands of `&&` and of `||`.

  lemma {:induction false} OneAnded(ts: Tokens, i: nat)
    requires i <= |ts| && Nots(ts, i).Got? && !At(ts, Nots(ts, i).end, "&&")
    ensures Ands(ts, i).Got? && Ands(ts, i).end == Nots(ts, i).end
    ensures AstAnd(Ands(ts, i).tree) == AstNot(Nots(ts, i).tree)
  {
    hide Nots, AstNot;
    var Got(n, j) := Nots(ts, i);
    assert AndRest(ts, j) == Got(AndEnd, j);
  }

  lemma {:induction false} TwoAnded(ts: Tokens, i: nat)
    requires i <= |ts| && Nots(ts, i).Got? && At(ts, Nots(ts, i).end, "&&")
    requires var j := Nots(ts, i).end; Nots(ts, j + 1).Got? && !At(ts, Nots(ts, j + 1).end, "&&")
    ensures var j := Nots(ts, i).end;
            && Ands(ts, i).Got? && Ands(ts, i).end == Nots(ts, j + 1).end
            && AstAnd(Ands(ts, i).tree) == Logical(And, AstNot(Nots(ts, i).tree), AstNot(Nots(ts, j + 1).tree))
  {
    hide Nots, AstNot;
    var Got(n, j) := Nots(ts, i);
    var Got(m, k) := Nots(ts, j + 1);
    assert AndRest(ts, k) == Got(AndEnd, k);
    assert AndRest(ts, j) == Got(AndNext(m, AndEnd), k);
    assert FoldAnd(Logical(And, AstNot(n), AstNot(m)), AndEnd) == Logical(And, AstNot(n), AstNot(m));
  }

  lemma {:induction false} ThreeAnded(ts: Tokens, i: nat)
    requires i <= |ts| && Nots(ts, i).Got? && At(ts, Nots(ts, i).end, "&&")
    requires var j := Nots(ts, i).end; Nots(ts, j + 1).Got? && At(ts, Nots(ts, j + 1).end, "&&")
    requires var k := Nots(ts, Nots(ts, i).end + 1).end; Nots(ts, k + 1).Got? && !At(ts, Nots(ts, k + 1).end, "&&")
    ensures var j := Nots(ts, i).end;
            var k := Nots(ts, j + 1).end;
            && Ands(ts, i).Got? && Ands(ts, i).end == Nots(ts, k + 1).end
            && AstAnd(Ands(ts, i).tree) ==
                 Logical(And, Logical(And, AstNot(Nots(ts, i).tree), AstNot(Nots(ts, j + 1).tree)), AstNot(Nots(ts, k + 1).tree))
  {
    hide Nots, AstNot;
    var Got(n, j) := Nots(ts, i);
    var Got(m, k) := Nots(ts, j + 1);
    var Got(p, l) := Nots(ts, k + 1);
    assert AndRest(ts, l) == Got(AndEnd, l);
    assert AndRest(ts, k) == Got(AndNext(p, AndEnd), l);
    assert AndRest(ts, j) == Got(AndNext(m, AndNext(p, AndEnd)), l);
    var both := Logical(And, AstNot(n), AstNot(m));
    assert FoldAnd(Logical(And, both, AstNot(p)), AndEnd) == Logical(And, both, AstNot(p));
    assert FoldAnd(both, AndNext(p, AndEnd)) == Logical(And, both, AstNot(p));
  }

  lemma {:induction false} OneOred(ts: Tokens, i: nat)
    requires i <= |ts| && Ands(ts, i).Got? && !At(ts, Ands(ts, i).end, "||")
    ensures Ors(ts, i).Got? && Ors(ts, i).end == Ands(ts, i).end
    ensures AstOr(Ors(ts, i).tree) == AstAnd(Ands(ts, i).tree)
  {
    hide Ands, AstAnd;
    var Got(n, j) := Ands(ts, i);
    assert OrRest(ts, j) == Got(OrEnd, j);
  }

  lemma {:induction false} TwoOred(ts: Tokens, i: nat)
    requires i <= |ts| && Ands(ts, i).Got? && At(ts, Ands(ts, i).end, "||")
    requires var j := Ands(ts, i).end; Ands(ts, j + 1).Got? && !At(ts, Ands(ts, j + 1).end, "||")
    ensures var j := Ands(ts, i).end;
            && Ors(ts, i).Got? && Ors(ts, i).end == Ands(ts, j + 1).end
            && AstOr(Ors(ts, i).tree) == Logical(Or, AstAnd(Ands(ts, i).tree), AstAnd(Ands(ts, j + 1).tree))
  {
    hide Ands, AstAnd;
    var Got(n, j) := Ands(ts, i);
    var Got(m, k) := Ands(ts, j + 1);
    assert OrRest(ts, k) == Got(OrEnd, k);
    assert OrRest(ts, j) == Got(OrNext(m, OrEnd), k);
    assert FoldOr(Logical(Or, AstAnd(n), AstAnd(m)), OrEnd) == Logical(Or, AstAnd(n), AstAnd(m));
  }

  lemma {:induction false} ThreeOred(ts: Tokens, i: nat)
    requires i <= |ts| && Ands(ts, i).Got? && At(ts, Ands(ts, i).end, "||")
    requires var j := Ands(ts, i).end; Ands(ts, j + 1).Got? && At(ts, Ands(ts, j + 1).end, "||")
    requires var k := Ands(ts, Ands(ts, i).end + 1).end; Ands(ts, k + 1).Got? && !At(ts, Ands(ts, k + 1).end, "||")
    ensures var j := Ands(ts, i).end;
            var k := Ands(ts, j + 1).end;
            && Ors(ts, i).Got? && Ors(ts, i).end == Ands(ts, k + 1).end
            && AstOr(Ors(ts, i).tree) ==
                 Logical(Or, Logical(Or, AstAnd(Ands(ts, i).tree), AstAnd(Ands(ts, j + 1).tree)), AstAnd(Ands(ts, k + 1).tree))
  {
    hide Ands, AstAnd;
    var Got(n, j) := Ands(ts, i);
    var Got(m, k) := Ands(ts, j + 1);
    var Got(p, l) := Ands(ts, k + 1);
    assert OrRest(ts, l) == Got(OrEnd, l);
    assert OrRest(ts, k) == Got(OrNext(p, OrEnd), l);
    assert OrRest(ts, j) == Got(OrNext(m, OrNext(p, OrEnd)), l);
    var both := Logical(Or, AstAnd(n), AstAnd(m));
    assert FoldOr(Logical(Or, both, AstAnd(p)), OrEnd) == Logical(Or, both, AstAnd(p));
    assert FoldOr(both, OrNext(p, OrEnd)) == Logical(Or, both, AstAnd(p));
  }

  /** `&&` binds tighter than `||`, on whichever side it stands, and both associate to the left. */
  lemma {:induction false} ConnectivesBind(x: string, y: string, z: string)
    requires IsPlainName(x) && IsPlainName(y) && IsPlainName(z)
    ensures ParseTokens([x, "||", y, "&&", z]) == Some(Logical(Or, Var(x), Logical(And, Var(y), Var(z))))
    ensures ParseTokens([x, "&&", y, "||", z]) == Some(Logical(Or, Logical(And, Var(x), Var(y)), Var(z)))
    ensures ParseTokens([x, "||", y, "||", z]) == Some(Logical(Or, Logical(Or, Var(x), Var(y)), Var(z)))
    ensures ParseTokens([x, "&&", y, "&&", z]) == Some(Logical(And, Logical(And, Var(x), Var(y)), Var(z)))
  {
    hide Nots, Ands, Ors, AstNot, AstAnd, AstOr, IsPlainName;
    var ts := [x, "||", y, "&&", z];
    Operands(ts);
    OneAnded(ts, 0);
    TwoAnded(ts, 2);
    TwoOred(ts, 0);
    var us := [x, "&&", y, "||", z];
    Operands(us);
    TwoAnded(us, 0);
    OneAnded(us, 4);
    TwoOred(us, 0);
    SameConnectives(x, y, z);
  }

  lemma {:induction false} SameConnectives(x: string, y: string, z: string)
    requires IsPlainName(x) && IsPlainName(y) && IsPlainName(z)
    ensures ParseTokens([x, "||", y, "||", z]) == Some(Logical(Or, Logical(Or, Var(x), Var(y)), Var(z)))
    ensures ParseTokens([x, "&&", y, "&&", z]) == Some(Logical(And, Logical(And, Var(x), Var(y)), Var(z)))
  {
    hide Nots, Ands, Ors, AstNot, AstAnd, AstOr, IsPlainName;
    var ts := [x, "||", y, "||", z];
    Operands(ts);
    OneAnded(ts, 0);
    OneAnded(ts, 2);
    OneAnded(ts, 4);
    ThreeOred(ts, 0);
    var us := [x, "&&", y, "&&", z];
    Operands(us);
    ThreeAnded(us, 0);
    OneOred(us, 0);
  }

  lemma {:induction false} Operands(ts: Tokens)
    requires |ts| == 5 && IsPlainName(ts[0]) && IsPlainName(ts[2]) && IsPlainName(ts[4])
    requires (ts[1] == "||" || ts[1] == "&&") && (ts[3] == "||" || ts[3] == "&&")
    ensures forall i :: i == 0 || i == 2 || i == 4 ==>
              Nots(ts, i).Got? && Nots(ts, i).end == i + 1 && AstNot(Nots(ts, i).tree) == Var(ts[i])
  {
    OperandAt(ts, 0);
    OperandAt(ts, 2);
    OperandAt(ts, 4);
    hide Nots, AstNot, IsPlainName;
  }

  const COMPARISONS: seq<string> := ["==", "!=", ">", "<", ">=", "<="]

  /** A comparison takes two primaries and binds tighter than `!`, and comparisons do not chain. */
  lemma {:induction false} ComparisonsBind(x: string, op: string, y: string, op2: string, z: string)
    requires IsPlainName(x) && IsPlainName(y) && op in COMPARISONS && op2 in COMPARISONS
    ensures ParseTokens([x, op, y]) == Some(Cmp(op, Var(x), Var(y)))
    ensures ParseTokens(["!", x, op, y]) == Some(Not(Cmp(op, Var(x), Var(y))))
    ensures ParseTokens([x, op, y, op2, z]) == None
  {
    OneComparison([x, op, y], 0);
    OneComparison(["!", x, op, y], 1);
    OneComparison([x, op, y, op2, z], 0);
    hide IsPlainName, Cmps, AstCmp;
    NotIsOver([x, op, y]);
    NotIsOver(["!", x, op, y]);
    NotIsOver([x, op, y, op2, z]);
  }

  lemma {:induction false} OneComparison(ts: Tokens, i: nat)
    requires i + 3 <= |ts| && IsPlainName(ts[i]) && IsPlainName(ts[i + 2]) && ts[i + 1] in COMPARISONS
    requires i + 3 < |ts| ==> ts[i + 3] in COMPARISONS
    ensures Cmps(ts, i).Got? && Cmps(ts, i).end == i + 3
    ensures AstCmp(Cmps(ts, i).tree) == Cmp(ts[i + 1], Var(ts[i]), Var(ts[i + 2]))
    ensures ts[i] != "!"
  {
    PlainIsName(ts[i]);
    NameAt(ts, i);
    NameAt(ts, i + 2);
    hide IsPlainName, Primaries;
  }

  /** A whole list that is one negation, or one comparison with something after it. */
  lemma {:induction false} NotIsOver(ts: Tokens)
    requires ts != [] && Nots(ts, 0).Got?
    requires var end := Nots(ts, 0).end; end < |ts| ==> ts[end] in COMPARISONS
    ensures ParseTokens(ts) == if Nots(ts, 0).end == |ts| then Some(AstNot(Nots(ts, 0).tree)) else None
  {
    hide Nots, AstNot, Ands, AstAnd, Ors, AstOr;
    OneAnded(ts, 0);
    OneOred(ts, 0);
  }

  /** After a dot stands any token that starts with a word character, digits included; and the first name of a
      path may be `$`. */
  lemma {:induction false} PathsParse(x: string, e: string)
    requires IsPlainName(x) || x == "$"
    requires e != "" && (e[0] in LOWER_CASE || e[0] in UPPER_CASE || e[0] == '_' || e[0] in DIGITS)
    ensures ParseTokens([x, ".", e]) == Some(Variable([x, e]))
    ensures ParseTokens([x, ".", e, "(", ")"]) == Some(Method([x, e], []))
    ensures ParseTokens([x, "(", ")"]) == Some(Function(x, []))
  {
    ClassesAreListed(e[0]);
    if x != "$" {
      PlainIsName(x);
    }
    assert IsName(x) && IsPathElement(e) && x != "!" && x != "(";
    hide IsPlainName, IsName, IsPathElement, IsReserved, LOWER_CASE, UPPER_CASE, DIGITS;
    PathTokens(x, e);
    CallTokens(x, e);
  }

  lemma {:induction false} OneElement(ts: Tokens, e: PathElement)
    requires |ts| >= 3 && ts[1] == "." && ts[2] == e && !At(ts, 3, ".")
    ensures PathRest(ts, 1) == Got([e], 3)
  {
    assert PathRest(ts, 3) == Got([], 3);
    assert [e] + [] == [e];
  }

  lemma {:induction false} PathTokens(x: Name, e: PathElement)
    requires x != "!" && x != "("
    ensures ParseTokens([x, ".", e]) == Some(Variable([x, e]))
    ensures ParseTokens([x, "(", ")"]) == Some(Function(x, []))
  {
    var ts := [x, ".", e];
    OneElement(ts, e);
    assert Primaries(ts, 0) == Got(VariablePath(x, [e]), 3);
    assert [x] + [e] == [x, e];
    OnePrimary(ts);
    var us := [x, "(", ")"];
    assert Primaries(us, 0) == Got(FunctionCall(x, NoArguments), 3);
    OnePrimary(us);
  }

  lemma {:induction false} CallTokens(x: Name, e: PathElement)
    requires x != "!" && x != "("
    ensures ParseTokens([x, ".", e, "(", ")"]) == Some(Method([x, e], []))
  {
    var ts := [x, ".", e, "(", ")"];
    OneElement(ts, e);
    assert Args(ts, 4) == Got(NoArguments, 5);
    assert [e][..0] == [] && [x] + ([] + [e]) == [x, e];
    assert Primaries(ts, 0) == Got(MethodCall(x, [], e, NoArguments), 5);
    OnePrimary(ts);
  }

  lemma {:induction false} OnePrimary(ts: Tokens)
    requires ts != [] && ts[0] != "!" && Primaries(ts, 0).Got? && Primaries(ts, 0).end == |ts|
    ensures ParseTokens(ts) == Some(AstPrimary(Primaries(ts, 0).tree))
  {
    hide Primaries, AstPrimary;
    assert Nots(ts, 0) == Got(Plain(Bare(Primaries(ts, 0).tree)), |ts|);
    NotIsOver(ts);
  }
}
