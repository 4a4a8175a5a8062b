/** The evaluator of core/expression.py: strict comparison, short-circuit logic, whitelisted
    namespaces, and the proof that nothing else of the environment can be observed. */
module Evaluator {
  import opened Text
  import opened Grammar
  import opened PyFloat

  /** Run-time values. `Obj` stands for any other Python object, such as the history proxies. */
  datatype Value =
    | Null
    | Bool(b: bool)
    | Int(n: int)
    | Float(r: real)
    | Str(s: string)
    | List(items: seq<Value>)
    | Dict(entries: map<string, Value>)
    | Obj(id: int)

  /** `Denied` is the whitelist error, `BadExpression` every other ExpressionError, `Diagnostic` an
      exception carrying a reason, and `Crash` any other Python exception. */
  datatype Error = Denied(namespace: string) | BadExpression | Diagnostic(reason: string) | Crash

  datatype Result = Ok(value: Value) | Err(error: Error) {
    predicate IsFailure() { Err? }

    function PropagateFailure(): Result
      requires Err?
    {
      this
    }

    function Extract(): Value
      requires Ok?
    {
      value
    }
  }

  datatype CallOutcome = Returned(value: Value) | RaisedReason(reason: string) | RaisedOther

  /** What the evaluator asks of Python objects and of the libraries it calls. */
  datatype World = World(
    attribute: (Value, string) -> Value,                  // getattr(obj, name, None)
    callable: (Value, string) -> bool,                    // is getattr(obj, name) a callable
    call: (Value, string, seq<Value>) -> CallOutcome,     // obj.name(*args)
    truth: int -> bool,                                   // bool(obj)
    text: Value -> string,                                // str(v) of floats, lists, dicts and objects
    decimal: string -> real,                              // float(text) of a decimal literal
    number: string -> Option<Value>,                      // float(text), made int when integral; None is ValueError
    integer: string -> Option<int>)                       // int(text); None is ValueError

  /** The clock and the other namespaces by name. */
  datatype Env = Env(now: int, spaces: map<string, Value>)

  const ALLOWED: set<string> := {"event", "context", "state", "meta", "now", "peers", "history"}

  predicate Truthy(v: Value, w: World) {
    match v
    case Null => false
    case Bool(b) => b
    case Int(n) => n != 0
    case Float(r) => r != 0.0
    case Str(s) => s != ""
    case List(items) => items != []
    case Dict(m) => m != map[]
    case Obj(id) => w.truth(id)
  }

  // ---------- Paths ----------

  function Step(cur: Value, key: string, w: World): Value {
    match cur
    case Null => Null
    case Dict(m) => if key in m then m[key] else Null
    case _ => w.attribute(cur, key)
  }

  function Walk(cur: Value, keys: seq<string>, w: World): Value
    decreases |keys|
  {
    if keys == [] || cur == Null then cur else Walk(Step(cur, keys[0], w), keys[1..], w)
  }

  function Lookup(env: Env, name: string): Value {
    if name in env.spaces then env.spaces[name] else Dict(map[])
  }

  function ResolvePath(env: Env, path: seq<string>, w: World): Result {
    if path == [] then Err(BadExpression)
    else if path[0] !in ALLOWED then Err(Denied(path[0]))
    else if path[0] == "now" then (if |path| == 1 then Ok(Int(env.now)) else Err(BadExpression))
    else Ok(Walk(Lookup(env, path[0]), path[1..], w))
  }

  /** The source's loop over the path. */
  method ResolvePathLoop(env: Env, path: seq<string>, w: World) returns (r: Result)
    ensures r == ResolvePath(env, path, w)
  {
    if path == [] {
      return Err(BadExpression);
    }
    var ns := path[0];
    if ns !in ALLOWED {
      return Err(Denied(ns));
    }
    if ns == "now" {
      return if |path| != 1 then Err(BadExpression) else Ok(Int(env.now));
    }
    var cur := Lookup(env, ns);
    var i := 1;
    while i < |path|
      invariant 1 <= i <= |path|
      invariant Walk(Lookup(env, ns), path[1..], w) == Walk(cur, path[i..], w)
    {
      if cur == Null {
        return Ok(Null);
      }
      ghost var rest := path[i..];
      assert rest[1..] == path[i + 1..];
      cur := if cur.Dict? then (if path[i] in cur.entries then cur.entries[path[i]] else Null)
             else w.attribute(cur, path[i]);
      if cur == Null {
        return Ok(Null);
      }
      i := i + 1;
    }
    return Ok(cur);
  }

  // ---------- Comparison ----------

  predicate IsNumber(v: Value) {
    v.Int? || v.Float?
  }

  /** `float(v)` of a number; `None` is OverflowError. */
  function AsFloat(v: Value): Option<real>
    requires IsNumber(v)
  {
    match v
    case Int(n) =>
      var f :- ToFloat(n);
      Some(f as real)
    case Float(r) => Some(r)
  }

  function FloatTest(lhs: Value, rhs: Value, test: (real, real) -> bool): Result
    requires IsNumber(lhs) && IsNumber(rhs)
  {
    if AsFloat(lhs).None? || AsFloat(rhs).None? then Err(Crash)
    else Ok(Bool(test(AsFloat(lhs).value, AsFloat(rhs).value)))
  }

  function Equal(lhs: Value, rhs: Value): Result {
    if lhs == Null || rhs == Null then Ok(Bool(lhs == rhs))
    else if lhs.Bool? || rhs.Bool? then Ok(Bool(lhs == rhs))
    else if lhs.Str? && rhs.Str? then Ok(Bool(lhs.s == rhs.s))
    else if lhs.Int? && rhs.Int? then Ok(Bool(lhs.n == rhs.n))
    else if IsNumber(lhs) && IsNumber(rhs) then FloatTest(lhs, rhs, (a, b) => a == b)
    else Ok(Bool(false))
  }

  function Compare(lhs: Value, op: string, rhs: Value): Result {
    if op == "==" then
      Equal(lhs, rhs)
    else if op == "!=" then
      var v :- Equal(lhs, rhs);
      Ok(Bool(v == Bool(false)))
    else if !IsNumber(lhs) || !IsNumber(rhs) then Ok(Bool(false))
    else if op == ">" then FloatTest(lhs, rhs, (a, b) => a > b)
    else if op == "<" then FloatTest(lhs, rhs, (a, b) => a < b)
    else if op == ">=" then FloatTest(lhs, rhs, (a, b) => a >= b)
    else if op == "<=" then FloatTest(lhs, rhs, (a, b) => a <= b)
    else Ok(Bool(false))
  }

  // ---------- Evaluation ----------

  function LiteralValue(v: Literal, w: World): Value {
    match v
    case LNull => Null
    case LBool(b) => Bool(b)
    case LInt(n) => Int(n)
    case LDecimal(text) => Float(w.decimal(text))
    case LString(s) => Str(s)
  }

  /** Python's `int(x)` on a number or boolean. */
  function Truncate(v: Value): Option<int> {
    match v
    case Bool(b) => Some(if b then 1 else 0)
    case Int(n) => Some(n)
    case Float(r) => Some(if r < 0.0 then -((-r).Floor) else r.Floor)
    case _ => None
  }

  function Duration(env: Env): Result {
    match Lookup(env, "state")
    case Dict(m) => Ok(if "duration_ms" in m then m["duration_ms"] else Int(0))
    case _ => Err(Crash)
  }

  datatype ArgumentValues = Values(vs: seq<Value>) | Failed(error: Error)

  /** The method call itself, once its arguments are evaluated: an exception without a reason is
      swallowed and the call counts as `None`. */
  function Invoke(obj: Value, name: string, args: ArgumentValues, w: World): Result {
    match args
    case Failed(error) => Err(error)
    case Values(vs) =>
      match w.call(obj, name, vs)
      case Returned(v) => Ok(v)
      case RaisedReason(reason) => Err(Diagnostic(reason))
      case RaisedOther => Ok(Null)
  }

  function Evaluate(e: Expr, env: Env, w: World): Result
    decreases e, 0
  {
    match e
    case Lit(v) => Ok(LiteralValue(v, w))
    case Variable(path) => ResolvePath(env, path, w)
    case Function(name, args) =>
      if name == "now" then
        if args != [] then Err(BadExpression) else Ok(Int(env.now))
      else if name == "since" then
        if |args| != 1 then Err(BadExpression) else
        var ts :- Evaluate(args[0], env, w);
        if Truncate(ts).None? then Err(BadExpression) else Ok(Int(env.now - Truncate(ts).value))
      else if name == "duration_in_state" then
        if args != [] then Err(BadExpression) else Duration(env)
      else
        Err(BadExpression)
    case Method(path, args) =>
      if path == [] then Err(BadExpression)
      else if path[0] !in ALLOWED then Err(Denied(path[0]))
      else
        var obj :- ResolvePath(env, path[..|path| - 1], w);
        var name := path[|path| - 1];
        if obj == Null || !w.callable(obj, name) then Ok(Null)
        else Invoke(obj, name, EvaluateAll(args, env, w), w)
    case Cmp(op, l, r) =>
      var lhs :- Evaluate(l, env, w);
      var rhs :- Evaluate(r, env, w);
      Compare(lhs, op, rhs)
    case Logical(And, l, r) =>
      var lhs :- Evaluate(l, env, w);
      if Truthy(lhs, w) then Evaluate(r, env, w) else Ok(lhs)
    case Logical(Or, l, r) =>
      var lhs :- Evaluate(l, env, w);
      if Truthy(lhs, w) then Ok(lhs) else Evaluate(r, env, w)
    case Not(x) =>
      var v :- Evaluate(x, env, w);
      Ok(Bool(!Truthy(v, w)))
  }

  function EvaluateAll(args: seq<Expr>, env: Env, w: World): ArgumentValues
    decreases args, 1
  {
    if args == [] then Values([]) else
    match Evaluate(args[0], env, w)
    case Err(error) => Failed(error)
    case Ok(v) =>
      match EvaluateAll(args[1..], env, w)
      case Failed(error) => Failed(error)
      case Values(vs) => Values([v] + vs)
  }

  // ---------- Comparison laws ----------

  /** A greater-than test that answers true on two integers is right: rounding never reverses order. */
  lemma GreaterIsSound(m: int, n: int)
    requires Compare(Int(m), ">", Int(n)) == Ok(Bool(true))
    ensures m > n
  {
    if m <= n {
      ToFloatMonotone(m, n);
    }
  }

  /** Within 2^53 all four ordered tests on integers are exact. */
  lemma OrderIsExact(m: int, n: int)
    requires m <= TWO_53 && -m <= TWO_53 && n <= TWO_53 && -n <= TWO_53
    ensures Compare(Int(m), ">", Int(n)) == Ok(Bool(m > n))
    ensures Compare(Int(m), "<", Int(n)) == Ok(Bool(m < n))
    ensures Compare(Int(m), ">=", Int(n)) == Ok(Bool(m >= n))
    ensures Compare(Int(m), "<=", Int(n)) == Ok(Bool(m <= n))
  {
    ToFloatExact(m);
    ToFloatExact(n);
  }

  /** Beyond 2^53 an increase by one can go unnoticed. */
  lemma OrderMissesAnIncrease()
    ensures Compare(Int(TWO_53 + 1), ">", Int(TWO_53)) == Ok(Bool(false))
  {
    ToFloatNotInjective();
    ToFloatExact(TWO_53);
  }

  /** A greater-than test on two integers answers true exactly when their doubles differ in that order. */
  lemma GreaterIff(m: int, n: int)
    ensures Compare(Int(m), ">", Int(n)) == Ok(Bool(true)) <==>
              m > n && ToFloat(m).Some? && ToFloat(n).Some? && ToFloat(m) != ToFloat(n)
  {
    if ToFloat(m).Some? && ToFloat(n).Some? {
      if m <= n {
        ToFloatMonotone(m, n);
      } else {
        ToFloatMonotone(n, m);
      }
    }
  }

  /** No value equals a value of another kind, except that an integer may equal a float. */
  lemma EqualityIsStrict(lhs: Value, rhs: Value)
    requires Equal(lhs, rhs) == Ok(Bool(true))
    ensures lhs == rhs || (IsNumber(lhs) && IsNumber(rhs) && (lhs.Float? || rhs.Float?))
    ensures !lhs.List? && !lhs.Dict? && !lhs.Obj?
  {
  }

  /** Equality is symmetric, and a value equals itself unless it is a list, a mapping or an object; `!=` is
      its negation; the ordered tests mirror each other; and no ordered test holds where a number is missing. */
  lemma ComparisonLaws(lhs: Value, rhs: Value)
    ensures Equal(lhs, rhs) == Equal(rhs, lhs)
    ensures Equal(lhs, lhs) == Ok(Bool(!lhs.List? && !lhs.Dict? && !lhs.Obj?))
    ensures Compare(lhs, "!=", rhs) == Ok(Bool(true)) <==> Compare(lhs, "==", rhs) == Ok(Bool(false))
    ensures Compare(lhs, ">", rhs) == Compare(rhs, "<", lhs) && Compare(lhs, ">=", rhs) == Compare(rhs, "<=", lhs)
    ensures Compare(lhs, ">", rhs) == Ok(Bool(true)) ==> Compare(lhs, "<=", rhs) == Ok(Bool(false))
    ensures Compare(lhs, "<", rhs) == Ok(Bool(true)) ==> Compare(lhs, ">=", rhs) == Ok(Bool(false))
    ensures !IsNumber(lhs) ==> Compare(lhs, ">", rhs) == Ok(Bool(false)) && Compare(lhs, "<=", rhs) == Ok(Bool(false))
  {
  }

  /** De Morgan holds for short-circuit evaluation, values and errors alike. */
  lemma DeMorgan(l: Expr, r: Expr, env: Env, w: World)
    ensures Evaluate(Not(Logical(And, l, r)), env, w) == Evaluate(Logical(Or, Not(l), Not(r)), env, w)
    ensures Evaluate(Not(Logical(Or, l, r)), env, w) == Evaluate(Logical(And, Not(l), Not(r)), env, w)
  {
  }

  /** Walking a path is walking its front and then its rest; a `Null` on the way ends it. */
  lemma {:induction false} WalkConcat(cur: Value, front: seq<string>, rest: seq<string>, w: World)
    ensures Walk(cur, front + rest, w) == Walk(Walk(cur, front, w), rest, w)
    decreases |front|
  {
    if front == [] {
      assert front + rest == rest;
    } else {
      assert (front + rest)[0] == front[0] && (front + rest)[1..] == front[1..] + rest;
      if cur != Null {
        WalkConcat(Step(cur, front[0], w), front[1..], rest, w);
      }
    }
  }

  /** Floats compare as the reals they are, and an integer as its double, which fails when there is none. */
  lemma FloatsCompare(a: real, b: real, n: int)
    ensures Equal(Float(a), Float(b)) == Ok(Bool(a == b)) && Compare(Float(a), ">", Float(b)) == Ok(Bool(a > b))
    ensures Compare(Float(a), "<=", Float(b)) == Ok(Bool(a <= b))
    ensures ToFloat(n).Some? ==>
              var f := ToFloat(n).value as real;
              Equal(Int(n), Float(a)) == Ok(Bool(f == a)) && Compare(Int(n), ">", Float(a)) == Ok(Bool(f > a))
              && Compare(Int(n), "<=", Float(a)) == Ok(Bool(f <= a))
    ensures ToFloat(n).None? ==> Equal(Int(n), Float(a)) == Err(Crash) && Compare(Int(n), ">", Float(a)) == Err(Crash)
  {
    hide ToFloat;
  }

  /** There are seven roots; every other one is denied. */
  lemma OnlySeven(env: Env, ns: string, rest: seq<string>, w: World)
    ensures ns == "event" || ns == "context" || ns == "state" || ns == "meta" || ns == "now" || ns == "peers" || ns == "history"
            <==> ResolvePath(env, [ns] + rest, w) != Err(Denied(ns))
    ensures ns !in env.spaces && ns in ALLOWED && ns != "now" ==> ResolvePath(env, [ns], w) == Ok(Dict(map[]))
  {
    assert ([ns] + rest)[0] == ns;
  }

  // ---------- What values and calls mean ----------

  /** The false values: null, false, the zeros, what is empty, and objects that say so themselves. */
  lemma FalseValues(v: Value, w: World)
    ensures !Truthy(v, w) <==>
              || v in {Null, Bool(false), Int(0), Float(0.0), Str(""), List([]), Dict(map[])}
              || (v.Obj? && !w.truth(v.id))
  {
  }

  /** Mappings inside each other along a path of keys, with a value at the end. */
  function Nested(path: seq<string>, v: Value): Value {
    if path == [] then v else Dict(map[path[0] := Nested(path[1..], v)])
  }

  lemma {:induction false} WalkNested(path: seq<string>, v: Value, w: World)
    ensures Walk(Nested(path, v), path, w) == v
    decreases |path|
  {
    if path != [] {
      WalkNested(path[1..], v, w);
    }
  }

  /** A path through mappings finds what stands at its end. */
  lemma PathsResolve(env: Env, ns: string, path: seq<string>, v: Value, w: World)
    requires ns in ALLOWED && ns != "now" && Lookup(env, ns) == Nested(path, v)
    ensures ResolvePath(env, [ns] + path, w) == Ok(v)
  {
    WalkNested(path, v, w);
    assert ([ns] + path)[1..] == path && ([ns] + path)[0] == ns;
    hide Walk, Nested, Lookup;
  }

  /** A key that is missing on the way gives null, whatever is asked of it. */
  lemma MissingIsNull(env: Env, ns: string, path: seq<string>, entries: map<string, Value>, missing: string, rest: seq<string>, w: World)
    requires ns in ALLOWED && ns != "now" && Lookup(env, ns) == Nested(path, Dict(entries)) && missing !in entries
    ensures ResolvePath(env, [ns] + (path + ([missing] + rest)), w) == Ok(Null)
  {
    var more := [missing] + rest;
    assert more[0] == missing && more[1..] == rest;
    assert Walk(Dict(entries), more, w) == Null by { assert Walk(Null, rest, w) == Null; }
    WalkNested(path, Dict(entries), w);
    WalkConcat(Lookup(env, ns), path, more, w);
    assert ([ns] + (path + more))[1..] == path + more && ([ns] + (path + more))[0] == ns;
    hide Walk, Nested, Lookup;
  }

  /** `now` is the clock and no namespace. */
  lemma ClockResolves(env: Env, key: string, rest: seq<string>, w: World)
    ensures ResolvePath(env, ["now"], w) == Ok(Int(env.now))
    ensures ResolvePath(env, ["now", key] + rest, w) == Err(BadExpression)
    ensures ResolvePath(env, [], w) == Err(BadExpression)
  {
    assert (["now", key] + rest)[0] == "now";
  }

  /** A literal stands for its value; a decimal for the float of its text. */
  lemma LiteralsEvaluate(n: int, b: bool, s: string, d: string, env: Env, w: World)
    ensures Evaluate(Lit(LInt(n)), env, w) == Ok(Int(n)) && Evaluate(Lit(LBool(b)), env, w) == Ok(Bool(b))
    ensures Evaluate(Lit(LString(s)), env, w) == Ok(Str(s)) && Evaluate(Lit(LNull), env, w) == Ok(Null)
    ensures Evaluate(Lit(LDecimal(d)), env, w) == Ok(Float(w.decimal(d)))
  {
  }

  /** Cutting toward zero: the integer of the same sign, no longer and less than one shorter. */
  lemma TruncateCuts(r: real)
    ensures Truncate(Float(r)).Some?
    ensures var n := Truncate(Float(r)).value;
            if r >= 0.0 then n as real <= r < (n + 1) as real else (n - 1) as real < r <= n as real
    ensures Truncate(Int(0)) == Some(0) && Truncate(Bool(true)) == Some(1) && Truncate(Bool(false)) == Some(0)
  {
  }

  function AtTime(env: Env, now: int): Env {
    env.(now := now)
  }

  /** `since` of an integer time is what must be added to it to reach the clock; of a float, of its integer part;
      of a boolean, of 1 or 0; anything else is an error, and an error of the argument stays. */
  lemma SinceIsElapsed(arg: Expr, env: Env, w: World)
    ensures match Evaluate(arg, env, w)
            case Err(error) => Evaluate(Function("since", [arg]), env, w) == Err(error)
            case Ok(v) =>
              var r := Evaluate(Function("since", [arg]), env, w);
              if v.Int? || v.Float? || v.Bool? then
                && r.Ok? && r.value.Int?
                && (v.Int? ==> r.value.n + v.n == env.now)
                && (v.Float? ==> Truncate(v).Some? && r.value.n + Truncate(v).value == env.now)
                && (v.Bool? ==> r.value.n == (if v.b then env.now - 1 else env.now))
              else r == Err(BadExpression)
  {
  }

  /** When only the clock moves on, by `d`, the elapsed time grows by `d`. */
  lemma SinceGrows(arg: Expr, env: Env, d: int, w: World)
    requires Evaluate(arg, env, w) == Evaluate(arg, AtTime(env, env.now + d), w)
    requires Evaluate(Function("since", [arg]), env, w).Ok?
    ensures var before, after := Evaluate(Function("since", [arg]), env, w), Evaluate(Function("since", [arg]), AtTime(env, env.now + d), w);
            before.value.Int? && after == Ok(Int(before.value.n + d))
  {
  }

  /** `now()` is the clock, `duration_in_state()` is `state.duration_ms`, 0 when it is missing; wrong numbers of
      arguments and other names are errors. */
  lemma CallsAreKnown(name: string, args: seq<Expr>, env: Env, w: World)
    ensures Evaluate(Function("now", []), env, w) == Ok(Int(env.now))
    ensures Lookup(env, "state").Dict? ==>
              Evaluate(Function("duration_in_state", []), env, w) ==
              (if "duration_ms" in Lookup(env, "state").entries then ResolvePath(env, ["state", "duration_ms"], w) else Ok(Int(0)))
    ensures args != [] ==> Evaluate(Function("now", args), env, w) == Err(BadExpression)
                           && Evaluate(Function("duration_in_state", args), env, w) == Err(BadExpression)
    ensures |args| != 1 ==> Evaluate(Function("since", args), env, w) == Err(BadExpression)
    ensures name != "now" && name != "since" && name != "duration_in_state" ==>
              Evaluate(Function(name, args), env, w) == Err(BadExpression)
  {
    var keys := ["state", "duration_ms"][1..];
    assert keys == ["duration_ms"] && keys[1..] == [];
    var state := Lookup(env, "state");
    if state.Dict? && "duration_ms" in state.entries {
      assert Walk(state, keys, w) == Walk(state.entries["duration_ms"], [], w);
    }
  }

  /** Arguments are evaluated from the first to the last; the first that fails is the failure. */
  lemma {:induction false} ArgumentsEvaluate(args: seq<Expr>, vs: seq<Value>, env: Env, w: World)
    requires |vs| <= |args| && forall i :: 0 <= i < |vs| ==> Evaluate(args[i], env, w) == Ok(vs[i])
    ensures |vs| == |args| ==> EvaluateAll(args, env, w) == Values(vs)
    ensures |vs| < |args| && Evaluate(args[|vs|], env, w).Err? ==>
              EvaluateAll(args, env, w) == Failed(Evaluate(args[|vs|], env, w).error)
  {
    hide Evaluate;
    if vs != [] {
      assert forall i :: 0 <= i < |vs| - 1 ==> vs[1..][i] == vs[i + 1] && args[1..][i] == args[i + 1];
      ArgumentsEvaluate(args[1..], vs[1..], env, w);
      assert [vs[0]] + vs[1..] == vs;
    }
  }

  /** A method call on an object that is there, with the values of its arguments in order: its value; the diagnostic of
      an exception with a reason; null for any other exception, and for what is no method. */
  lemma {:induction false} MethodsAnswer(path: seq<string>, name: string, args: seq<Expr>, vs: seq<Value>, obj: Value, env: Env, w: World)
    requires path != [] && ResolvePath(env, path, w) == Ok(obj)
    requires |vs| == |args| && forall i :: 0 <= i < |args| ==> Evaluate(args[i], env, w) == Ok(vs[i])
    ensures Evaluate(Method(path + [name], args), env, w) ==
              if obj == Null || !w.callable(obj, name) then Ok(Null)
              else
                match w.call(obj, name, vs)
                case Returned(v) => Ok(v)
                case RaisedReason(reason) => Err(Diagnostic(reason))
                case RaisedOther => Ok(Null)
  {
    ArgumentsEvaluate(args, vs, env, w);
    var whole := path + [name];
    assert whole[..|whole| - 1] == path && whole[|whole| - 1] == name && whole[0] == path[0];
    hide ResolvePath, EvaluateAll;
  }

  /** A connective has the value of one of its operands: `&&` of the first false one, else of the second; `||` of
      the first true one, else of the second. */
  lemma ConnectivesDecide(l: Expr, r: Expr, env: Env, w: World)
    requires Evaluate(l, env, w).Ok? && Evaluate(r, env, w).Ok?
    ensures var x, y := Evaluate(l, env, w).value, Evaluate(r, env, w).value;
            var both, any := Evaluate(Logical(And, l, r), env, w), Evaluate(Logical(Or, l, r), env, w);
            && both.Ok? && any.Ok? && (both.value == x || both.value == y) && (any.value == x || any.value == y)
            && (Truthy(both.value, w) <==> Truthy(x, w) && Truthy(y, w))
            && (Truthy(any.value, w) <==> Truthy(x, w) || Truthy(y, w))
            && (Truthy(x, w) ==> both.value == y && any.value == x)
            && (!Truthy(x, w) ==> both.value == x && any.value == y)
            && Evaluate(Not(l), env, w) == Ok(Bool(!Truthy(x, w)))
  {
    hide Truthy;
  }

  // ---------- Confinement ----------

  predicate Since(ts: Result) {
    ts.Ok? && Truncate(ts.value).Some?
  }

  /** The namespaces an evaluation looks up, in order; after an error nothing more is looked up. */
  function Touched(e: Expr, env: Env, w: World): seq<string>
    decreases e, 0
  {
    match e
    case Lit(_) => []
    case Variable(path) => if path == [] then [] else [path[0]]
    case Function(name, args) =>
      if name == "now" && args == [] then ["now"]
      else if name == "since" && |args| == 1 then
        Touched(args[0], env, w) + if Since(Evaluate(args[0], env, w)) then ["now"] else []
      else if name == "duration_in_state" && args == [] then ["state"]
      else []
    case Method(path, args) =>
      if path == [] then []
      else if path[0] !in ALLOWED || |path| == 1 then [path[0]]
      else
        var obj := ResolvePath(env, path[..|path| - 1], w);
        if obj.Err? || obj.value == Null || !w.callable(obj.value, path[|path| - 1]) then [path[0]]
        else [path[0]] + TouchedAll(args, env, w)
    case Cmp(_, l, r) =>
      Touched(l, env, w) + if Evaluate(l, env, w).Err? then [] else Touched(r, env, w)
    case Logical(c, l, r) =>
      Touched(l, env, w) +
      (match Evaluate(l, env, w)
       case Err(_) => []
       case Ok(v) => if Truthy(v, w) == (c == And) then Touched(r, env, w) else [])
    case Not(x) => Touched(x, env, w)
  }

  function TouchedAll(args: seq<Expr>, env: Env, w: World): seq<string>
    decreases args, 1
  {
    if args == [] then []
    else Touched(args[0], env, w) + if Evaluate(args[0], env, w).Err? then [] else TouchedAll(args[1..], env, w)
  }

  ghost predicate AgreeOn(names: seq<string>, a: Env, b: Env) {
    forall i :: 0 <= i < |names| && names[i] in ALLOWED ==>
      if names[i] == "now" then a.now == b.now else Lookup(a, names[i]) == Lookup(b, names[i])
  }

  lemma AgreeOnSplit(p: seq<string>, q: seq<string>, a: Env, b: Env)
    requires AgreeOn(p + q, a, b)
    ensures AgreeOn(p, a, b) && AgreeOn(q, a, b)
  {
    forall i | 0 <= i < |p| ensures (p + q)[i] == p[i] {}
    forall i | 0 <= i < |q| ensures (p + q)[|p| + i] == q[i] {}
  }

  lemma ResolveConfined(path: seq<string>, a: Env, b: Env, w: World)
    requires path != [] ==> AgreeOn([path[0]], a, b)
    ensures ResolvePath(a, path, w) == ResolvePath(b, path, w)
  {
    if path != [] {
      assert [path[0]][0] == path[0];
    }
  }

  /** An evaluation depends on nothing but the allowed namespaces it looks up. */
  lemma {:induction false} EvaluateConfined(e: Expr, a: Env, b: Env, w: World)
    requires AgreeOn(Touched(e, a, w), a, b)
    ensures Evaluate(e, a, w) == Evaluate(e, b, w) && Touched(e, a, w) == Touched(e, b, w)
    decreases e, 1
  {
    match e
    case Lit(_) =>
    case Variable(path) =>
      ResolveConfined(path, a, b, w);
    case Function(name, args) =>
      if name == "now" && args == [] {
        assert ["now"][0] == "now";
      } else if name == "since" && |args| == 1 {
        AgreeOnSplit(Touched(args[0], a, w), if Since(Evaluate(args[0], a, w)) then ["now"] else [], a, b);
        assert ["now"][0] == "now";
        EvaluateConfined(args[0], a, b, w);
      } else if name == "duration_in_state" && args == [] {
        assert ["state"][0] == "state";
      }
    case Method(path, args) =>
      if path != [] && path[0] in ALLOWED && |path| > 1 {
        MethodConfined(path, args, a, b, w);
      }
    case Cmp(_, l, r) =>
      AgreeOnSplit(Touched(l, a, w), if Evaluate(l, a, w).Err? then [] else Touched(r, a, w), a, b);
      EvaluateConfined(l, a, b, w);
      if Evaluate(l, a, w).Ok? {
        EvaluateConfined(r, a, b, w);
      }
    case Logical(c, l, r) =>
      LogicalConfined(c, l, r, a, b, w);
    case Not(x) =>
      EvaluateConfined(x, a, b, w);
  }

  lemma {:induction false} LogicalConfined(c: Connective, l: Expr, r: Expr, a: Env, b: Env, w: World)
    requires AgreeOn(Touched(Logical(c, l, r), a, w), a, b)
    ensures Evaluate(Logical(c, l, r), a, w) == Evaluate(Logical(c, l, r), b, w)
    ensures Touched(Logical(c, l, r), a, w) == Touched(Logical(c, l, r), b, w)
    decreases Logical(c, l, r), 0
  {
    var v := Evaluate(l, a, w);
    var right := if v.Ok? && Truthy(v.value, w) == (c == And) then Touched(r, a, w) else [];
    AgreeOnSplit(Touched(l, a, w), right, a, b);
    EvaluateConfined(l, a, b, w);
    if v.Ok? && Truthy(v.value, w) == (c == And) {
      EvaluateConfined(r, a, b, w);
    }
  }

  lemma {:induction false} MethodConfined(path: seq<string>, args: seq<Expr>, a: Env, b: Env, w: World)
    requires |path| > 1 && path[0] in ALLOWED
    requires AgreeOn(Touched(Method(path, args), a, w), a, b)
    ensures Evaluate(Method(path, args), a, w) == Evaluate(Method(path, args), b, w)
    ensures Touched(Method(path, args), a, w) == Touched(Method(path, args), b, w)
    decreases Method(path, args), 0
  {
    var front, name := path[..|path| - 1], path[|path| - 1];
    var obj := ResolvePath(a, front, w);
    var calls := obj.Ok? && obj.value != Null && w.callable(obj.value, name);
    AgreeOnSplit([path[0]], if calls then TouchedAll(args, a, w) else [], a, b);
    ResolveConfined(front, a, b, w);
    if calls {
      ArgumentsConfined(args, a, b, w);
    }
  }

  lemma {:induction false} ArgumentsConfined(args: seq<Expr>, a: Env, b: Env, w: World)
    requires AgreeOn(TouchedAll(args, a, w), a, b)
    ensures EvaluateAll(args, a, w) == EvaluateAll(args, b, w)
    ensures TouchedAll(args, a, w) == TouchedAll(args, b, w)
    decreases args, 1
  {
    if args != [] {
      var failed := Evaluate(args[0], a, w).Err?;
      AgreeOnSplit(Touched(args[0], a, w), if failed then [] else TouchedAll(args[1..], a, w), a, b);
      EvaluateConfined(args[0], a, b, w);
      if !failed {
        ArgumentsConfined(args[1..], a, b, w);
      }
    }
  }

  /** Two environments that agree on the seven allowed namespaces cannot be told apart. */
  lemma Whitelisted(e: Expr, a: Env, b: Env, w: World)
    requires a.now == b.now
    requires forall ns :: ns in ALLOWED ==> Lookup(a, ns) == Lookup(b, ns)
    ensures Evaluate(e, a, w) == Evaluate(e, b, w)
  {
    EvaluateConfined(e, a, b, w);
  }

  ghost predicate AllAllowed(names: seq<string>) {
    forall i :: 0 <= i < |names| ==> names[i] in ALLOWED
  }

  /** `ns` is looked up last, it is not allowed, and everything looked up before it is. */
  ghost predicate EndsDenied(names: seq<string>, ns: string) {
    names != [] && names[|names| - 1] == ns && ns !in ALLOWED && AllAllowed(names[..|names| - 1])
  }

  ghost predicate DeniedExactly(denied: Option<string>, names: seq<string>) {
    match denied
    case None => AllAllowed(names)
    case Some(ns) => EndsDenied(names, ns)
  }

  function DenialOf(r: Result): Option<string> {
    if r.Err? && r.error.Denied? then Some(r.error.namespace) else None
  }

  function DenialOfAll(r: ArgumentValues): Option<string> {
    if r.Failed? && r.error.Denied? then Some(r.error.namespace) else None
  }

  lemma DeniedAfter(p: seq<string>, denied: Option<string>, q: seq<string>)
    requires AllAllowed(p) && DeniedExactly(denied, q)
    ensures DeniedExactly(denied, p + q)
  {
    if denied.Some? {
      assert (p + q)[..|p + q| - 1] == p + q[..|q| - 1];
    }
  }

  lemma NothingAfter(p: seq<string>)
    ensures p + [] == p
  {
  }

  /** An evaluation ends in the whitelist error for `ns` exactly when it looks up `ns`, which is not
      allowed, and then it looks up nothing more; a root that is short-circuited away denies nothing. */
  lemma {:induction false} DeniedIffTouched(e: Expr, env: Env, w: World)
    ensures DeniedExactly(DenialOf(Evaluate(e, env, w)), Touched(e, env, w))
    decreases e, 0
  {
    match e
    case Lit(_) =>
    case Variable(path) =>
    case Function(name, args) =>
      if name == "since" && |args| == 1 {
        DeniedIffTouched(args[0], env, w);
        NothingAfter(Touched(args[0], env, w));
        if Since(Evaluate(args[0], env, w)) {
          DeniedAfter(Touched(args[0], env, w), None, ["now"]);
        }
      }
    case Method(path, args) =>
      if path != [] && path[0] in ALLOWED && |path| > 1 {
        var front := path[..|path| - 1];
        assert front[0] == path[0];
        DeniedIffTouchedAll(args, env, w);
        DeniedAfter([path[0]], DenialOfAll(EvaluateAll(args, env, w)), TouchedAll(args, env, w));
      }
    case Cmp(op, l, r) =>
      DeniedIffTouched(l, env, w);
      if Evaluate(l, env, w).Ok? {
        DeniedIffTouched(r, env, w);
      }
      DeniedCmp(op, l, r, env, w);
    case Logical(c, l, r) =>
      DeniedIffTouched(l, env, w);
      if Evaluate(l, env, w).Ok? {
        DeniedIffTouched(r, env, w);
      }
      DeniedLogical(c, l, r, env, w);
    case Not(x) =>
      DeniedIffTouched(x, env, w);
  }

  ghost predicate DeniedAsTouched(e: Expr, env: Env, w: World) {
    DeniedExactly(DenialOf(Evaluate(e, env, w)), Touched(e, env, w))
  }

  lemma CompareDeniesNothing(lhs: Value, op: string, rhs: Value)
    ensures DenialOf(Compare(lhs, op, rhs)) == None
  {
  }

  lemma {:induction false} DeniedCmp(op: string, l: Expr, r: Expr, env: Env, w: World)
    requires DeniedAsTouched(l, env, w)
    requires Evaluate(l, env, w).Ok? ==> DeniedAsTouched(r, env, w)
    ensures DeniedAsTouched(Cmp(op, l, r), env, w)
  {
    hide Compare;
    var lhs, rhs := Evaluate(l, env, w), Evaluate(r, env, w);
    if lhs.Err? {
      NothingAfter(Touched(l, env, w));
    } else {
      DeniedAfter(Touched(l, env, w), DenialOf(rhs), Touched(r, env, w));
      if rhs.Ok? {
        CompareDeniesNothing(lhs.value, op, rhs.value);
      }
    }
  }

  lemma {:induction false} DeniedLogical(c: Connective, l: Expr, r: Expr, env: Env, w: World)
    requires DeniedAsTouched(l, env, w)
    requires Evaluate(l, env, w).Ok? ==> DeniedAsTouched(r, env, w)
    ensures DeniedAsTouched(Logical(c, l, r), env, w)
  {
    var lhs := Evaluate(l, env, w);
    NothingAfter(Touched(l, env, w));
    if lhs.Ok? {
      DeniedAfter(Touched(l, env, w), DenialOf(Evaluate(r, env, w)), Touched(r, env, w));
    }
  }

  lemma {:induction false} DeniedIffTouchedAll(args: seq<Expr>, env: Env, w: World)
    ensures DeniedExactly(DenialOfAll(EvaluateAll(args, env, w)), TouchedAll(args, env, w))
    decreases args, 1
  {
    if args != [] {
      DeniedIffTouched(args[0], env, w);
      NothingAfter(Touched(args[0], env, w));
      if Evaluate(args[0], env, w).Ok? {
        DeniedIffTouchedAll(args[1..], env, w);
        DeniedAfter(Touched(args[0], env, w), DenialOfAll(EvaluateAll(args[1..], env, w)), TouchedAll(args[1..], env, w));
      }
    }
  }
}
