/** Reference recursive descent: from a position of a token list it returns the derivation it
    recognises and where it ends. The theorems say that it recognises exactly the grammar. */
module Descent {
  import opened Text
  import opened Lexer
  import opened Grammar

  /** `Fail` is an ExpressionError; `Got` carries the derivation and the position after it. */
  datatype Parsed<+T> = Fail | Got(tree: T, end: nat) {
    predicate IsFailure() { Fail? }

    function PropagateFailure<U>(): Parsed<U>
      requires Fail?
    {
      Fail
    }

    function Extract(): (T, nat)
      requires Got?
    {
      (tree, end)
    }
  }

  type Tokens = seq<string>

  predicate At(ts: Tokens, i: nat, t: string) {
    i < |ts| && ts[i] == t
  }

  // ---------- The descent ----------

  function Ors(ts: Tokens, i: nat): (r: Parsed<OrTree>)
    requires i <= |ts|
    ensures r.Got? ==> i < r.end <= |ts|
    decreases |ts| - i, 6
  {
    var (first, j) :- Ands(ts, i);
    var (more, k) :- OrRest(ts, j);
    Got(OrTree(first, more), k)
  }

  function OrRest(ts: Tokens, i: nat): (r: Parsed<OrMore>)
    requires i <= |ts|
    ensures r.Got? ==> i <= r.end <= |ts|
    decreases |ts| - i, 6
  {
    if !At(ts, i, "||") then Got(OrEnd, i) else
    var (rhs, j) :- Ands(ts, i + 1);
    var (more, k) :- OrRest(ts, j);
    Got(OrNext(rhs, more), k)
  }

  function Ands(ts: Tokens, i: nat): (r: Parsed<AndTree>)
    requires i <= |ts|
    ensures r.Got? ==> i < r.end <= |ts|
    decreases |ts| - i, 5
  {
    var (first, j) :- Nots(ts, i);
    var (more, k) :- AndRest(ts, j);
    Got(AndTree(first, more), k)
  }

  function AndRest(ts: Tokens, i: nat): (r: Parsed<AndMore>)
    requires i <= |ts|
    ensures r.Got? ==> i <= r.end <= |ts|
    decreases |ts| - i, 5
  {
    if !At(ts, i, "&&") then Got(AndEnd, i) else
    var (rhs, j) :- Nots(ts, i + 1);
    var (more, k) :- AndRest(ts, j);
    Got(AndNext(rhs, more), k)
  }

  function Nots(ts: Tokens, i: nat): (r: Parsed<NotTree>)
    requires i <= |ts|
    ensures r.Got? ==> i < r.end <= |ts|
    decreases |ts| - i, 4
  {
    if At(ts, i, "!") then
      var (inner, j) :- Nots(ts, i + 1);
      Got(Bang(inner), j)
    else
      var (cmp, j) :- Cmps(ts, i);
      Got(Plain(cmp), j)
  }

  function Cmps(ts: Tokens, i: nat): (r: Parsed<CmpTree>)
    requires i <= |ts|
    ensures r.Got? ==> i < r.end <= |ts|
    decreases |ts| - i, 3
  {
    var (lhs, j) :- Primaries(ts, i);
    if j < |ts| && IsComparison(ts[j]) then
      var (rhs, k) :- Primaries(ts, j + 1);
      Got(Relation(lhs, ts[j], rhs), k)
    else
      Got(Bare(lhs), j)
  }

  function Primaries(ts: Tokens, i: nat): (r: Parsed<Primary>)
    requires i <= |ts|
    ensures r.Got? ==> i < r.end <= |ts|
    decreases |ts| - i, 2
  {
    if i == |ts| then
      Fail
    else if ts[i] == "(" then
      var (inner, j) :- Ors(ts, i + 1);
      if At(ts, j, ")") then Got(Paren(inner), j + 1) else Fail
    else if IsName(ts[i]) then
      if At(ts, i + 1, "(") then
        var (args, j) :- Args(ts, i + 2);
        Got(FunctionCall(ts[i], args), j)
      else
        var (rest, j) :- PathRest(ts, i + 1);
        if At(ts, j, "(") then
          var (args, k) :- Args(ts, j + 1);
          Got(MethodCall(ts[i], rest[..|rest| - 1], rest[|rest| - 1], args), k)
        else
          Got(VariablePath(ts[i], rest), j)
    else if LiteralOf(ts[i]).Some? then
      Got(LiteralPrimary(ts[i]), i + 1)
    else
      Fail
  }

  function PathRest(ts: Tokens, i: nat): (r: Parsed<seq<PathElement>>)
    requires i <= |ts|
    ensures r.Got? ==> i <= r.end <= |ts|
    ensures r.Got? && r.tree == [] ==> r.end == i
    decreases |ts| - i, 0
  {
    if !At(ts, i, ".") then Got([], i)
    else if i + 1 == |ts| || !IsPathElement(ts[i + 1]) then Fail
    else
      var (rest, j) :- PathRest(ts, i + 2);
      Got([ts[i + 1]] + rest, j)
  }

  /** An argument list up to and including its closing parenthesis. */
  function Args(ts: Tokens, i: nat): (r: Parsed<Arguments>)
    requires i <= |ts|
    ensures r.Got? ==> i < r.end <= |ts|
    decreases |ts| - i, 7
  {
    if At(ts, i, ")") then Got(NoArguments, i + 1) else
    var (first, j) :- Ors(ts, i);
    var (more, k) :- ArgsRest(ts, j);
    if At(ts, k, ")") then Got(SomeArguments(first, more), k + 1) else Fail
  }

  function ArgsRest(ts: Tokens, i: nat): (r: Parsed<ArgumentsMore>)
    requires i <= |ts|
    ensures r.Got? ==> i <= r.end <= |ts|
    decreases |ts| - i, 7
  {
    if !At(ts, i, ",") then Got(ArgumentsEnd, i) else
    var (arg, j) :- Ors(ts, i + 1);
    var (more, k) :- ArgsRest(ts, j);
    Got(ArgumentsNext(arg, more), k)
  }

  /** The whole token list must be one `or` expression. */
  function Derivation(ts: Tokens): Option<OrTree> {
    match Ors(ts, 0)
    case Fail => None
    case Got(t, end) => if end == |ts| then Some(t) else None
  }

  // ---------- Soundness: what is recognised is what was read ----------

  /** The tokens from `i` to `j` are exactly `ys`. */
  ghost predicate Spans(ts: Tokens, i: nat, j: nat, ys: seq<string>) {
    i <= j <= |ts| && ts[i..j] == ys
  }

  lemma SpansConcat(ts: Tokens, i: nat, j: nat, k: nat, a: seq<string>, b: seq<string>)
    requires Spans(ts, i, j, a) && Spans(ts, j, k, b)
    ensures Spans(ts, i, k, a + b)
  {
    assert ts[i..k] == ts[i..j] + ts[j..k];
  }

  lemma SpansOne(ts: Tokens, i: nat, j: nat, t: string, ys: seq<string>)
    requires At(ts, i, t) && Spans(ts, i + 1, j, ys)
    ensures Spans(ts, i, j, [t] + ys)
  {
    assert ts[i..i + 1] == [t];
    SpansConcat(ts, i, i + 1, j, [t], ys);
  }

  lemma SpansThen(ts: Tokens, i: nat, j: nat, ys: seq<string>, t: string)
    requires Spans(ts, i, j, ys) && At(ts, j, t)
    ensures Spans(ts, i, j + 1, ys + [t])
  {
    assert ts[j..j + 1] == [t];
    SpansConcat(ts, i, j, j + 1, ys, [t]);
  }

  lemma {:induction false} SoundOrs(ts: Tokens, i: nat)
    requires i <= |ts|
    ensures Ors(ts, i).Got? ==> Spans(ts, i, Ors(ts, i).end, YieldOr(Ors(ts, i).tree))
    decreases |ts| - i, 6
  {
    SoundAnds(ts, i);
    if Ands(ts, i).Got? {
      var Got(first, j) := Ands(ts, i);
      SoundOrRest(ts, j);
      if OrRest(ts, j).Got? {
        var Got(more, k) := OrRest(ts, j);
        SpansConcat(ts, i, j, k, YieldAnd(first), YieldOrMore(more));
      }
    }
  }

  lemma {:induction false} SoundOrRest(ts: Tokens, i: nat)
    requires i <= |ts|
    ensures OrRest(ts, i).Got? ==> Spans(ts, i, OrRest(ts, i).end, YieldOrMore(OrRest(ts, i).tree))
    decreases |ts| - i, 6
  {
    if At(ts, i, "||") {
      SoundAnds(ts, i + 1);
      if Ands(ts, i + 1).Got? {
        var Got(rhs, j) := Ands(ts, i + 1);
        SoundOrRest(ts, j);
        if OrRest(ts, j).Got? {
          var Got(more, k) := OrRest(ts, j);
          SpansConcat(ts, i + 1, j, k, YieldAnd(rhs), YieldOrMore(more));
          SpansOne(ts, i, k, "||", YieldAnd(rhs) + YieldOrMore(more));
        }
      }
    }
  }

  lemma {:induction false} SoundAnds(ts: Tokens, i: nat)
    requires i <= |ts|
    ensures Ands(ts, i).Got? ==> Spans(ts, i, Ands(ts, i).end, YieldAnd(Ands(ts, i).tree))
    decreases |ts| - i, 5
  {
    SoundNots(ts, i);
    if Nots(ts, i).Got? {
      var Got(first, j) := Nots(ts, i);
      SoundAndRest(ts, j);
      if AndRest(ts, j).Got? {
        var Got(more, k) := AndRest(ts, j);
        SpansConcat(ts, i, j, k, YieldNot(first), YieldAndMore(more));
      }
    }
  }

  lemma {:induction false} SoundAndRest(ts: Tokens, i: nat)
    requires i <= |ts|
    ensures AndRest(ts, i).Got? ==> Spans(ts, i, AndRest(ts, i).end, YieldAndMore(AndRest(ts, i).tree))
    decreases |ts| - i, 5
  {
    if At(ts, i, "&&") {
      SoundNots(ts, i + 1);
      if Nots(ts, i + 1).Got? {
        var Got(rhs, j) := Nots(ts, i + 1);
        SoundAndRest(ts, j);
        if AndRest(ts, j).Got? {
          var Got(more, k) := AndRest(ts, j);
          SpansConcat(ts, i + 1, j, k, YieldNot(rhs), YieldAndMore(more));
          SpansOne(ts, i, k, "&&", YieldNot(rhs) + YieldAndMore(more));
        }
      }
    }
  }

  lemma {:induction false} SoundNots(ts: Tokens, i: nat)
    requires i <= |ts|
    ensures Nots(ts, i).Got? ==> Spans(ts, i, Nots(ts, i).end, YieldNot(Nots(ts, i).tree))
    decreases |ts| - i, 4
  {
    if At(ts, i, "!") {
      SoundNots(ts, i + 1);
      if Nots(ts, i + 1).Got? {
        var Got(inner, j) := Nots(ts, i + 1);
        SpansOne(ts, i, j, "!", YieldNot(inner));
      }
    } else {
      SoundCmps(ts, i);
    }
  }

  lemma {:induction false} SoundCmps(ts: Tokens, i: nat)
    requires i <= |ts|
    ensures Cmps(ts, i).Got? ==> Spans(ts, i, Cmps(ts, i).end, YieldCmp(Cmps(ts, i).tree))
    decreases |ts| - i, 3
  {
    hide Primaries, YieldPrimary;
    SoundPrimaries(ts, i);
    if Primaries(ts, i).Got? {
      var Got(lhs, j) := Primaries(ts, i);
      if j < |ts| && IsComparison(ts[j]) {
        SoundPrimaries(ts, j + 1);
        if Primaries(ts, j + 1).Got? {
          var Got(rhs, k) := Primaries(ts, j + 1);
          SpansOne(ts, j, k, ts[j], YieldPrimary(rhs));
          SpansConcat(ts, i, j, k, YieldPrimary(lhs), [ts[j]] + YieldPrimary(rhs));
        }
      }
    }
  }

  lemma {:induction false} SoundPrimaries(ts: Tokens, i: nat)
    requires i <= |ts|
    ensures Primaries(ts, i).Got? ==> Spans(ts, i, Primaries(ts, i).end, YieldPrimary(Primaries(ts, i).tree))
    decreases |ts| - i, 2
  {
    if i == |ts| {
    } else if ts[i] == "(" {
      SoundOrs(ts, i + 1);
      if Primaries(ts, i).Got? {
        var Got(inner, j) := Ors(ts, i + 1);
        SpansThen(ts, i + 1, j, YieldOr(inner), ")");
        SpansOne(ts, i, j + 1, "(", YieldOr(inner) + [")"]);
      }
    } else if IsName(ts[i]) {
      SoundNamed(ts, i);
    }
  }

  lemma {:induction false} SoundNamed(ts: Tokens, i: nat)
    requires i < |ts| && ts[i] != "(" && IsName(ts[i])
    ensures Primaries(ts, i).Got? ==> Spans(ts, i, Primaries(ts, i).end, YieldPrimary(Primaries(ts, i).tree))
    decreases |ts| - i, 1
  {
    if At(ts, i + 1, "(") {
      SoundArgs(ts, i + 2);
      if Args(ts, i + 2).Got? {
        var Got(args, j) := Args(ts, i + 2);
        SoundFunction(ts, i, j, args);
      }
    } else {
      SoundPathRest(ts, i + 1);
      if PathRest(ts, i + 1).Got? {
        var Got(rest, j) := PathRest(ts, i + 1);
        if At(ts, j, "(") {
          SoundArgs(ts, j + 1);
          SoundMethod(ts, i, j, rest);
        } else {
          SpansOne(ts, i, j, ts[i], YieldPath(rest));
        }
      }
    }
  }

  lemma {:induction false} SoundFunction(ts: Tokens, i: nat, j: nat, args: Arguments)
    requires i < |ts| && IsName(ts[i]) && At(ts, i + 1, "(")
    requires Spans(ts, i + 2, j, YieldArguments(args) + [")"])
    ensures Spans(ts, i, j, YieldPrimary(FunctionCall(ts[i], args)))
  {
    SpansOne(ts, i + 1, j, "(", YieldArguments(args) + [")"]);
    SpansOne(ts, i, j, ts[i], ["("] + (YieldArguments(args) + [")"]));
  }

  lemma {:induction false} SoundMethod(ts: Tokens, i: nat, j: nat, rest: seq<PathElement>)
    requires i < |ts| && ts[i] != "(" && IsName(ts[i]) && !At(ts, i + 1, "(")
    requires i + 1 <= j < |ts| && PathRest(ts, i + 1) == Got(rest, j) && At(ts, j, "(")
    requires Spans(ts, i + 1, j, YieldPath(rest))
    requires Args(ts, j + 1).Got? ==>
      Spans(ts, j + 1, Args(ts, j + 1).end, YieldArguments(Args(ts, j + 1).tree) + [")"])
    ensures Primaries(ts, i).Got? ==> Spans(ts, i, Primaries(ts, i).end, YieldPrimary(Primaries(ts, i).tree))
  {
    if Args(ts, j + 1).Got? {
      var Got(args, k) := Args(ts, j + 1);
      assert rest[..|rest| - 1] + [rest[|rest| - 1]] == rest;
      SpellMethod(ts, i, j, k, rest[..|rest| - 1], rest[|rest| - 1], args);
    }
  }

  lemma {:induction false} SpellMethod(ts: Tokens, i: nat, j: nat, k: nat, init: seq<PathElement>,
                                       last: PathElement, args: Arguments)
    requires i < |ts| && IsName(ts[i])
    requires Spans(ts, i + 1, j, YieldPath(init + [last])) && At(ts, j, "(")
    requires Spans(ts, j + 1, k, YieldArguments(args) + [")"])
    ensures Spans(ts, i, k, YieldPrimary(MethodCall(ts[i], init, last, args)))
  {
    var path, tail := YieldPath(init + [last]), YieldArguments(args) + [")"];
    SpansOne(ts, j, k, "(", tail);
    SpansConcat(ts, i + 1, j, k, path, ["("] + tail);
    SpansOne(ts, i, k, ts[i], path + (["("] + tail));
  }

  lemma {:induction false} SoundPathRest(ts: Tokens, i: nat)
    requires i <= |ts|
    ensures PathRest(ts, i).Got? ==> Spans(ts, i, PathRest(ts, i).end, YieldPath(PathRest(ts, i).tree))
    decreases |ts| - i, 0
  {
    if At(ts, i, ".") && i + 1 < |ts| && IsPathElement(ts[i + 1]) {
      SoundPathRest(ts, i + 2);
      if PathRest(ts, i + 2).Got? {
        var Got(rest, j) := PathRest(ts, i + 2);
        SpansOne(ts, i + 1, j, ts[i + 1], YieldPath(rest));
        SpansOne(ts, i, j, ".", [ts[i + 1]] + YieldPath(rest));
        assert ([ts[i + 1]] + rest)[1..] == rest;
        assert [".", ts[i + 1]] + YieldPath(rest) == ["."] + ([ts[i + 1]] + YieldPath(rest));
      }
    }
  }

  lemma {:induction false} SoundArgs(ts: Tokens, i: nat)
    requires i <= |ts|
    ensures Args(ts, i).Got? ==> Spans(ts, i, Args(ts, i).end, YieldArguments(Args(ts, i).tree) + [")"])
    decreases |ts| - i, 7
  {
    if At(ts, i, ")") {
      assert ts[i..i + 1] == [")"] == [] + [")"];
    } else {
      SoundOrs(ts, i);
      if Ors(ts, i).Got? {
        var Got(first, j) := Ors(ts, i);
        SoundArgsRest(ts, j);
        if Args(ts, i).Got? {
          var Got(more, k) := ArgsRest(ts, j);
          SpansConcat(ts, i, j, k, YieldOr(first), YieldArgumentsMore(more));
          SpansThen(ts, i, k, YieldOr(first) + YieldArgumentsMore(more), ")");
        }
      }
    }
  }

  lemma {:induction false} SoundArgsRest(ts: Tokens, i: nat)
    requires i <= |ts|
    ensures ArgsRest(ts, i).Got? ==> Spans(ts, i, ArgsRest(ts, i).end, YieldArgumentsMore(ArgsRest(ts, i).tree))
    decreases |ts| - i, 7
  {
    if At(ts, i, ",") {
      SoundOrs(ts, i + 1);
      if Ors(ts, i + 1).Got? {
        var Got(arg, j) := Ors(ts, i + 1);
        SoundArgsRest(ts, j);
        if ArgsRest(ts, j).Got? {
          var Got(more, k) := ArgsRest(ts, j);
          SpansConcat(ts, i + 1, j, k, YieldOr(arg), YieldArgumentsMore(more));
          SpansOne(ts, i, k, ",", YieldOr(arg) + YieldArgumentsMore(more));
        }
      }
    }
  }

  // ---------- Completeness: every derivation is recognised, and is the only one ----------

  /** The token at `j`, if any, cannot extend a phrase of the given level: 0 for a primary,
      1 for a comparison or negation, 2 for an `and`, 3 for an `or` expression. */
  predicate Stops(ts: Tokens, j: nat, level: nat) {
    j < |ts| ==>
      && ts[j] != "." && ts[j] != "("
      && (level >= 1 ==> !IsComparison(ts[j]))
      && (level >= 2 ==> ts[j] != "&&")
      && (level >= 3 ==> ts[j] != "||")
  }

  lemma SpansSplit(ts: Tokens, i: nat, k: nat, a: seq<string>, b: seq<string>)
    requires Spans(ts, i, k, a + b)
    ensures Spans(ts, i, i + |a|, a) && Spans(ts, i + |a|, k, b)
  {
    assert ts[i..i + |a|] == ts[i..k][..|a|] == a;
    assert ts[i + |a|..k] == ts[i..k][|a|..] == b;
  }

  lemma SpansHead(ts: Tokens, i: nat, k: nat, t: string, b: seq<string>)
    requires Spans(ts, i, k, [t] + b)
    ensures At(ts, i, t) && Spans(ts, i + 1, k, b)
  {
    SpansSplit(ts, i, k, [t], b);
    assert ts[i] == ts[i..i + 1][0];
  }

  lemma {:induction false} CompleteOrs(t: OrTree, ts: Tokens, i: nat, k: nat)
    requires Spans(ts, i, k, YieldOr(t)) && Stops(ts, k, 3)
    ensures Ors(ts, i) == Got(t, k)
    decreases t
  {
    var j := i + |YieldAnd(t.first)|;
    SpansSplit(ts, i, k, YieldAnd(t.first), YieldOrMore(t.more));
    OrMoreStarts(t.more, ts, j, k);
    CompleteAnds(t.first, ts, i, j);
    CompleteOrRest(t.more, ts, j, k);
  }

  lemma OrMoreStarts(m: OrMore, ts: Tokens, j: nat, k: nat)
    requires Spans(ts, j, k, YieldOrMore(m)) && Stops(ts, k, 3)
    ensures Stops(ts, j, 2)
  {
    if m.OrNext? {
      SpansHead(ts, j, k, "||", YieldAnd(m.rhs) + YieldOrMore(m.more));
    }
  }

  lemma {:induction false} CompleteOrRest(m: OrMore, ts: Tokens, i: nat, k: nat)
    requires Spans(ts, i, k, YieldOrMore(m)) && Stops(ts, k, 3)
    ensures OrRest(ts, i) == Got(m, k)
    decreases m
  {
    if m.OrNext? {
      SpansHead(ts, i, k, "||", YieldAnd(m.rhs) + YieldOrMore(m.more));
      var j := i + 1 + |YieldAnd(m.rhs)|;
      SpansSplit(ts, i + 1, k, YieldAnd(m.rhs), YieldOrMore(m.more));
      OrMoreStarts(m.more, ts, j, k);
      CompleteAnds(m.rhs, ts, i + 1, j);
      CompleteOrRest(m.more, ts, j, k);
    }
  }

  lemma {:induction false} CompleteAnds(t: AndTree, ts: Tokens, i: nat, k: nat)
    requires Spans(ts, i, k, YieldAnd(t)) && Stops(ts, k, 2)
    ensures Ands(ts, i) == Got(t, k)
    decreases t
  {
    var j := i + |YieldNot(t.first)|;
    SpansSplit(ts, i, k, YieldNot(t.first), YieldAndMore(t.more));
    AndMoreStarts(t.more, ts, j, k);
    CompleteNots(t.first, ts, i, j);
    CompleteAndRest(t.more, ts, j, k);
  }

  lemma AndMoreStarts(m: AndMore, ts: Tokens, j: nat, k: nat)
    requires Spans(ts, j, k, YieldAndMore(m)) && Stops(ts, k, 2)
    ensures Stops(ts, j, 1)
  {
    if m.AndNext? {
      SpansHead(ts, j, k, "&&", YieldNot(m.rhs) + YieldAndMore(m.more));
    }
  }

  lemma {:induction false} CompleteAndRest(m: AndMore, ts: Tokens, i: nat, k: nat)
    requires Spans(ts, i, k, YieldAndMore(m)) && Stops(ts, k, 2)
    ensures AndRest(ts, i) == Got(m, k)
    decreases m
  {
    if m.AndNext? {
      SpansHead(ts, i, k, "&&", YieldNot(m.rhs) + YieldAndMore(m.more));
      var j := i + 1 + |YieldNot(m.rhs)|;
      SpansSplit(ts, i + 1, k, YieldNot(m.rhs), YieldAndMore(m.more));
      AndMoreStarts(m.more, ts, j, k);
      CompleteNots(m.rhs, ts, i + 1, j);
      CompleteAndRest(m.more, ts, j, k);
    }
  }

  /** The first token of a primary is none of the operators the descent looks for. */
  lemma PrimaryStarts(p: Primary)
    ensures YieldPrimary(p)[0] != "!" && YieldPrimary(p)[0] != ")"
  {
  }

  lemma CmpStarts(t: CmpTree)
    ensures YieldCmp(t) != [] && YieldCmp(t)[0] != "!" && YieldCmp(t)[0] != ")"
  {
    PrimaryStarts(if t.Bare? then t.only else t.lhs);
  }

  lemma OrStarts(t: OrTree)
    ensures YieldOr(t) != [] && YieldOr(t)[0] != ")"
  {
    NotStarts(t.first.first);
  }

  lemma {:induction false} NotStarts(t: NotTree)
    ensures YieldNot(t) != [] && YieldNot(t)[0] != ")"
  {
    if t.Plain? {
      CmpStarts(t.cmp);
    }
  }

  lemma {:induction false} CompleteNots(t: NotTree, ts: Tokens, i: nat, k: nat)
    requires Spans(ts, i, k, YieldNot(t)) && Stops(ts, k, 1)
    ensures Nots(ts, i) == Got(t, k)
    decreases t
  {
    match t
    case Bang(inner) =>
      SpansHead(ts, i, k, "!", YieldNot(inner));
      CompleteNots(inner, ts, i + 1, k);
    case Plain(cmp) =>
      CmpStarts(cmp);
      assert ts[i] == ts[i..k][0];
      CompleteCmps(cmp, ts, i, k);
  }

  lemma {:induction false} CompleteCmps(t: CmpTree, ts: Tokens, i: nat, k: nat)
    requires Spans(ts, i, k, YieldCmp(t)) && Stops(ts, k, 1)
    ensures Cmps(ts, i) == Got(t, k)
    decreases t
  {
    hide Primaries;
    match t
    case Bare(p) =>
      CompletePrimaries(p, ts, i, k);
    case Relation(l, op, r) =>
      var j := i + |YieldPrimary(l)|;
      SpansSplit(ts, i, k, YieldPrimary(l), [op] + YieldPrimary(r));
      SpansHead(ts, j, k, op, YieldPrimary(r));
      CompletePrimaries(l, ts, i, j);
      CompletePrimaries(r, ts, j + 1, k);
  }

  lemma LiteralIsNoName(t: LiteralToken)
    ensures t != "(" && !IsName(t)
  {
    if IsDecimal(t) {
      var i :| 0 <= i < |t| && IsDecimalAt(t, i);
      assert t[..i][0] == t[0];
    }
  }

  lemma {:induction false} CompletePrimaries(p: Primary, ts: Tokens, i: nat, k: nat)
    requires Spans(ts, i, k, YieldPrimary(p)) && Stops(ts, k, 0)
    ensures Primaries(ts, i) == Got(p, k)
    decreases p
  {
    hide LiteralOf;
    match p
    case Paren(inner) =>
      SpansHead(ts, i, k, "(", YieldOr(inner) + [")"]);
      SpansSplit(ts, i + 1, k, YieldOr(inner), [")"]);
      SpansHead(ts, k - 1, k, ")", []);
      CompleteOrs(inner, ts, i + 1, k - 1);
    case LiteralPrimary(t) =>
      SpansHead(ts, i, k, t, []);
      LiteralIsNoName(t);
    case VariablePath(first, rest) =>
      SpansHead(ts, i, k, first, YieldPath(rest));
      CompletePathRest(rest, ts, i + 1, k);
      if rest != [] {
        SpansHead(ts, i + 1, k, ".", YieldPath(rest)[1..]);
      }
    case FunctionCall(name, args) =>
      SpansHead(ts, i, k, name, ["("] + (YieldArguments(args) + [")"]));
      SpansHead(ts, i + 1, k, "(", YieldArguments(args) + [")"]);
      CompleteArgs(args, ts, i + 2, k);
    case MethodCall(first, rest, last, args) =>
      CompleteMethod(p, ts, i, k);
  }

  lemma {:induction false} CompleteMethod(p: Primary, ts: Tokens, i: nat, k: nat)
    requires p.MethodCall? && Spans(ts, i, k, YieldPrimary(p)) && Stops(ts, k, 0)
    ensures Primaries(ts, i) == Got(p, k)
    decreases p, 0
  {
    hide LiteralOf;
    var path := p.rest + [p.last];
    var call := ["("] + (YieldArguments(p.args) + [")"]);
    SpansHead(ts, i, k, p.first, YieldPath(path) + call);
    var j := i + 1 + |YieldPath(path)|;
    SpansSplit(ts, i + 1, k, YieldPath(path), call);
    SpansHead(ts, j, k, "(", YieldArguments(p.args) + [")"]);
    SpansHead(ts, i + 1, j, ".", YieldPath(path)[1..]);
    CompletePathRest(path, ts, i + 1, j);
    CompleteArgs(p.args, ts, j + 1, k);
    assert path[..|path| - 1] == p.rest;
  }

  lemma {:induction false} CompletePathRest(rest: seq<PathElement>, ts: Tokens, i: nat, k: nat)
    requires Spans(ts, i, k, YieldPath(rest)) && !At(ts, k, ".")
    ensures PathRest(ts, i) == Got(rest, k)
    decreases |rest|
  {
    if rest != [] {
      var tail := YieldPath(rest[1..]);
      assert YieldPath(rest) == ["."] + ([rest[0]] + tail);
      SpansHead(ts, i, k, ".", [rest[0]] + tail);
      SpansHead(ts, i + 1, k, rest[0], tail);
      CompletePathRest(rest[1..], ts, i + 2, k);
      assert rest == [rest[0]] + rest[1..];
    }
  }

  lemma {:induction false} CompleteArgs(a: Arguments, ts: Tokens, i: nat, k: nat)
    requires Spans(ts, i, k, YieldArguments(a) + [")"])
    ensures Args(ts, i) == Got(a, k)
    decreases a
  {
    SpansSplit(ts, i, k, YieldArguments(a), [")"]);
    SpansHead(ts, k - 1, k, ")", []);
    if a.SomeArguments? {
      var j := i + |YieldOr(a.first)|;
      SpansSplit(ts, i, k - 1, YieldOr(a.first), YieldArgumentsMore(a.more));
      OrStarts(a.first);
      assert ts[i] == ts[i..j][0];
      ArgumentsMoreStarts(a.more, ts, j, k - 1);
      CompleteOrs(a.first, ts, i, j);
      CompleteArgsRest(a.more, ts, j, k - 1);
    }
  }

  lemma ArgumentsMoreStarts(m: ArgumentsMore, ts: Tokens, j: nat, k: nat)
    requires Spans(ts, j, k, YieldArgumentsMore(m)) && At(ts, k, ")")
    ensures Stops(ts, j, 3)
  {
    if m.ArgumentsNext? {
      SpansHead(ts, j, k, ",", YieldOr(m.arg) + YieldArgumentsMore(m.more));
    }
  }

  lemma {:induction false} CompleteArgsRest(m: ArgumentsMore, ts: Tokens, i: nat, k: nat)
    requires Spans(ts, i, k, YieldArgumentsMore(m)) && At(ts, k, ")")
    ensures ArgsRest(ts, i) == Got(m, k)
    decreases m
  {
    if m.ArgumentsNext? {
      SpansHead(ts, i, k, ",", YieldOr(m.arg) + YieldArgumentsMore(m.more));
      var j := i + 1 + |YieldOr(m.arg)|;
      SpansSplit(ts, i + 1, k, YieldOr(m.arg), YieldArgumentsMore(m.more));
      ArgumentsMoreStarts(m.more, ts, j, k);
      CompleteOrs(m.arg, ts, i + 1, j);
      CompleteArgsRest(m.more, ts, j, k);
    }
  }

  // ---------- The theorems ----------

  /** The descent returns a derivation exactly when it is one of the token list: it is sound and
      complete, and since it is a function, no token list has two derivations. */
  lemma DerivationIff(ts: Tokens, t: OrTree)
    ensures Derivation(ts) == Some(t) <==> YieldOr(t) == ts
  {
    assert ts[0..|ts|] == ts;
    SoundOrs(ts, 0);
    if YieldOr(t) == ts {
      CompleteOrs(t, ts, 0, |ts|);
    }
  }

  /** The grammar is unambiguous. */
  lemma Unambiguous(t: OrTree, u: OrTree)
    requires YieldOr(t) == YieldOr(u)
    ensures t == u
  {
    DerivationIff(YieldOr(t), t);
    DerivationIff(YieldOr(t), u);
  }

  /** A token list is accepted exactly when it is a sentence. */
  lemma AcceptedIffSentence(ts: Tokens)
    ensures Derivation(ts).Some? <==> IsSentence(ts)
  {
    if Derivation(ts).Some? {
      DerivationIff(ts, Derivation(ts).value);
    }
    forall t | YieldOr(t) == ts { DerivationIff(ts, t); }
  }
}
