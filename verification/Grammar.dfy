/** The expression grammar (skill/EXPRESSION_REFERENCE.md, as core/expression.py parses it): the
    abstract syntax, the derivation trees of the grammar, the sentence a derivation spells and the
    abstract syntax it stands for. */
module Grammar {
  import opened Text
  import opened Lexer

  // ---------- Abstract syntax ----------

  /** A literal's value. Decimals keep their text; see the evaluator for their value. */
  datatype Literal = LNull | LBool(b: bool) | LInt(n: int) | LDecimal(text: string) | LString(s: string)

  datatype Connective = And | Or

  datatype Expr =
    | Lit(value: Literal)
    | Variable(path: seq<string>)
    | Function(name: string, args: seq<Expr>)
    | Method(path: seq<string>, args: seq<Expr>)
    | Cmp(op: string, lhs: Expr, rhs: Expr)
    | Logical(connective: Connective, lhs: Expr, rhs: Expr)
    | Not(operand: Expr)

  // ---------- Tokens by their grammatical role ----------

  predicate IsReserved(t: string) {
    t == "true" || t == "false" || t == "null"
  }

  /** A token that can start a variable, function or method: `$`, or an identifier. */
  predicate IsName(t: string) {
    (t == "$" || (t != "" && IsIdentStart(t[0]))) && !IsReserved(t)
  }

  /** A token that can follow a dot: anything that starts with a word character. */
  predicate IsPathElement(t: string) {
    t != "" && IsWordChar(t[0])
  }

  predicate IsComparison(t: string) {
    t == "==" || t == "!=" || t == ">" || t == "<" || t == ">=" || t == "<="
  }

  predicate IsSignedDecimal(t: string) {
    IsDecimal(t) || (t != "" && t[0] == '-' && IsDecimal(t[1..]))
  }

  /** The text between matching quotes, as the parser strips them. */
  function Unquoted(t: string): Option<string> {
    if t != "" && t[0] == t[|t| - 1] && (t[0] == '"' || t[0] == '\'') then
      Some(if |t| >= 2 then t[1..|t| - 1] else "")
    else
      None
  }

  /** The literal a token denotes, tried in the parser's order. */
  function LiteralOf(t: string): Option<Literal> {
    if t == "true" then Some(LBool(true))
    else if t == "false" then Some(LBool(false))
    else if t == "null" then Some(LNull)
    else if IsSignedDecimal(t) then Some(LDecimal(t))
    else if IsIntText(t) then Some(LInt(IntValue(t)))
    else if Unquoted(t).Some? then Some(LString(Unquoted(t).value))
    else None
  }

  type Name = t: string | IsName(t) witness "$"
  type PathElement = t: string | IsPathElement(t) witness "a"
  type Comparison = t: string | IsComparison(t) witness "=="
  type LiteralToken = t: string | LiteralOf(t).Some? witness "true"

  // ---------- Derivation trees, one datatype per nonterminal ----------

  datatype OrTree = OrTree(first: AndTree, more: OrMore)
  datatype OrMore = OrEnd | OrNext(rhs: AndTree, more: OrMore)
  datatype AndTree = AndTree(first: NotTree, more: AndMore)
  datatype AndMore = AndEnd | AndNext(rhs: NotTree, more: AndMore)
  datatype NotTree = Bang(inner: NotTree) | Plain(cmp: CmpTree)
  datatype CmpTree = Bare(only: Primary) | Relation(lhs: Primary, op: Comparison, rhs: Primary)
  datatype Primary =
    | Paren(inner: OrTree)
    | LiteralPrimary(token: LiteralToken)
    | VariablePath(first: Name, rest: seq<PathElement>)
    | FunctionCall(name: Name, args: Arguments)
    | MethodCall(first: Name, rest: seq<PathElement>, last: PathElement, args: Arguments)
  datatype Arguments = NoArguments | SomeArguments(first: OrTree, more: ArgumentsMore)
  datatype ArgumentsMore = ArgumentsEnd | ArgumentsNext(arg: OrTree, more: ArgumentsMore)

  // ---------- The sentence a derivation spells ----------

  function YieldOr(t: OrTree): seq<string> {
    YieldAnd(t.first) + YieldOrMore(t.more)
  }

  function YieldOrMore(m: OrMore): seq<string> {
    match m
    case OrEnd => []
    case OrNext(rhs, more) => ["||"] + (YieldAnd(rhs) + YieldOrMore(more))
  }

  function YieldAnd(t: AndTree): seq<string> {
    YieldNot(t.first) + YieldAndMore(t.more)
  }

  function YieldAndMore(m: AndMore): seq<string> {
    match m
    case AndEnd => []
    case AndNext(rhs, more) => ["&&"] + (YieldNot(rhs) + YieldAndMore(more))
  }

  function YieldNot(t: NotTree): seq<string> {
    match t
    case Bang(inner) => ["!"] + YieldNot(inner)
    case Plain(cmp) => YieldCmp(cmp)
  }

  function YieldCmp(t: CmpTree): seq<string> {
    match t
    case Bare(p) => YieldPrimary(p)
    case Relation(l, op, r) => YieldPrimary(l) + ([op] + YieldPrimary(r))
  }

  function YieldPrimary(p: Primary): (ts: seq<string>)
    ensures ts != []
  {
    match p
    case Paren(inner) => ["("] + (YieldOr(inner) + [")"])
    case LiteralPrimary(t) => [t]
    case VariablePath(first, rest) => [first] + YieldPath(rest)
    case FunctionCall(name, args) => [name] + (["("] + (YieldArguments(args) + [")"]))
    case MethodCall(first, rest, last, args) =>
      [first] + (YieldPath(rest + [last]) + (["("] + (YieldArguments(args) + [")"])))
  }

  function YieldPath(rest: seq<PathElement>): seq<string> {
    if rest == [] then [] else [".", rest[0]] + YieldPath(rest[1..])
  }

  function YieldArguments(a: Arguments): seq<string> {
    match a
    case NoArguments => []
    case SomeArguments(first, more) => YieldOr(first) + YieldArgumentsMore(more)
  }

  function YieldArgumentsMore(m: ArgumentsMore): seq<string> {
    match m
    case ArgumentsEnd => []
    case ArgumentsNext(arg, more) => [","] + (YieldOr(arg) + YieldArgumentsMore(more))
  }

  /** A token list is a sentence when some derivation spells it. */
  ghost predicate IsSentence(tokens: seq<string>) {
    exists t :: YieldOr(t) == tokens
  }

  // ---------- The abstract syntax a derivation stands for ----------

  function AstOr(t: OrTree): Expr {
    FoldOr(AstAnd(t.first), t.more)
  }

  /** `||` associates to the left. */
  function FoldOr(lhs: Expr, m: OrMore): Expr
    decreases m
  {
    match m
    case OrEnd => lhs
    case OrNext(rhs, more) => FoldOr(Logical(Or, lhs, AstAnd(rhs)), more)
  }

  function AstAnd(t: AndTree): Expr {
    FoldAnd(AstNot(t.first), t.more)
  }

  /** `&&` associates to the left. */
  function FoldAnd(lhs: Expr, m: AndMore): Expr
    decreases m
  {
    match m
    case AndEnd => lhs
    case AndNext(rhs, more) => FoldAnd(Logical(And, lhs, AstNot(rhs)), more)
  }

  function AstNot(t: NotTree): Expr {
    match t
    case Bang(inner) => Not(AstNot(inner))
    case Plain(cmp) => AstCmp(cmp)
  }

  function AstCmp(t: CmpTree): Expr {
    match t
    case Bare(p) => AstPrimary(p)
    case Relation(l, op, r) => Cmp(op, AstPrimary(l), AstPrimary(r))
  }

  function AstPrimary(p: Primary): Expr {
    match p
    case Paren(inner) => AstOr(inner)
    case LiteralPrimary(t) => Lit(LiteralOf(t).value)
    case VariablePath(first, rest) => Variable([first] + rest)
    case FunctionCall(name, args) => Function(name, AstArguments(args))
    case MethodCall(first, rest, last, args) => Method([first] + (rest + [last]), AstArguments(args))
  }

  function AstArguments(a: Arguments): seq<Expr> {
    match a
    case NoArguments => []
    case SomeArguments(first, more) => [AstOr(first)] + AstArgumentsMore(more)
  }

  function AstArgumentsMore(m: ArgumentsMore): seq<Expr> {
    match m
    case ArgumentsEnd => []
    case ArgumentsNext(arg, more) => [AstOr(arg)] + AstArgumentsMore(more)
  }
}
