/** The interpreter of src/math/evaluate.js: contexts chained by `parent`, each with a
    symbol map and a separate function map, and `evaluate` over expression trees. */
module Evaluate {
  import opened Wrappers
  import opened Expression
  import opened Bindings
  import ListUtil

  /** `SymbolTypes.CONSTANT`, the only symbol type. */
  datatype Symbol = Constant(value: real)

  /** `FunctionTypes.BUILTIN` and `FunctionTypes.CUSTOM`. */
  datatype Func =
    | Builtin(func: seq<real> -> real, argCount: nat)
    | Custom(expr: Expr, name: string, argNames: seq<string>)

  /** What `context(...)` returns; `None` is the `null` parent of the default context. */
  datatype Context = Context(parent: Option<Context>, symbols: map<string, Symbol>, functions: map<string, Func>)

  /** The floating-point library the engine calls into, left uninterpreted. */
  datatype Library = Library(
    sin: real -> real, cos: real -> real, tan: real -> real,
    asin: real -> real, acos: real -> real, atan: real -> real,
    pow: (real, real) -> real, pi: real, e: real)

  /** The strings the interpreter throws, plus `NotFinite` for a JavaScript division by zero
      (Infinity or NaN) and `OutOfFuel` for a call chain deeper than the model's bound. */
  datatype EvalError =
    | NotDefined(name: string)
    | WrongNumberOfArguments
    | UnsupportedExpression
    | NotFinite
    | OutOfFuel

  type Eval<T> = Result<T, EvalError>

  /** The `parent` argument of `context`: left out it defaults to the default context. */
  datatype ParentArgument = DefaultParent | Given(parent: Option<Context>)

  // ---------------------------------------------------------------------------
  // Building contexts

  /** `constant(name, value)`. */
  function NamedConstant(name: string, value: real): (string, Symbol)
  {
    (name, Constant(value))
  }

  /** `builtinFunc(name, func, argCount)`. */
  function BuiltinFunc(name: string, func: seq<real> -> real, argCount: nat): (string, Func)
  {
    (name, Builtin(func, argCount))
  }

  /** `customFunc(assignment)`: the function a definition `f(x, ...) = body` binds; `None`
      where reading `left.name` or `left.args` throws a TypeError. */
  function CustomFunc(assignment: Expr): (r: Option<(string, Func)>)
    ensures r.Some? <==> assignment.Assignment? && assignment.left.FunctionCall?
    ensures r.Some? ==> r.value.0 == assignment.left.name && r.value.1.Custom? &&
                        r.value.1.expr == assignment.right && r.value.1.name == assignment.left.name &&
                        |r.value.1.argNames| == |assignment.left.args|
    ensures IsFunctionDefinition(assignment) ==>
              r.Some? && forall i :: 0 <= i < |assignment.left.args| ==>
                           r.value.1.argNames[i] == assignment.left.args[i].name
  {
    if assignment.Assignment? && assignment.left.FunctionCall? then
      var left := assignment.left;
      var argNames := seq(|left.args|, i requires 0 <= i < |left.args| => NameField(left.args[i]));
      Some((left.name, Custom(assignment.right, left.name, argNames)))
    else None
  }

  function ResolveParent(parent: ParentArgument, lib: Library): Option<Context>
  {
    if parent.Given? then parent.parent else Some(DefaultContext(lib))
  }

  /** `context({parent, symbols, functions})`: both lists are poured into maps, a later
      entry overwriting an earlier one with the same name. */
  function ContextOf(parent: ParentArgument, symbols: seq<(string, Symbol)>, functions: seq<(string, Func)>,
                     lib: Library): (c: Context)
    ensures c.symbols.Keys == set i | 0 <= i < |symbols| :: symbols[i].0
    ensures c.functions.Keys == set i | 0 <= i < |functions| :: functions[i].0
    ensures parent.DefaultParent? ==> c.parent == Some(DefaultContext(lib))
    ensures parent.Given? ==> c.parent == parent.parent
  {
    Context(ResolveParent(parent, lib), BindingsMap(symbols), BindingsMap(functions))
  }

  /** The two for loops of `context`. */
  method MakeContext(parent: ParentArgument, symbols: seq<(string, Symbol)>, functions: seq<(string, Func)>,
                     lib: Library) returns (c: Context)
    ensures c == ContextOf(parent, symbols, functions, lib)
  {
    var symbolMap := FillMap(symbols);
    var functionMap := FillMap(functions);
    c := Context(ResolveParent(parent, lib), symbolMap, functionMap);
  }

  /** The one-argument builtin around a library function. */
  function Unary(f: real -> real): seq<real> -> real
  {
    (args: seq<real>) => if |args| == 1 then f(args[0]) else 0.0
  }

  /** `defaultContext`: no parent, the constants pi and e, and six one-argument builtins. */
  function DefaultContext(lib: Library): (c: Context)
    ensures c.parent.None?
    ensures c.symbols == map["pi" := Constant(lib.pi), "e" := Constant(lib.e)]
    ensures c.functions.Keys == {"sin", "cos", "tan", "asin", "acos", "atan"}
    ensures forall name :: name in c.functions ==> c.functions[name].Builtin? && c.functions[name].argCount == 1
    ensures c.functions == map["sin" := Builtin(Unary(lib.sin), 1), "cos" := Builtin(Unary(lib.cos), 1),
                               "tan" := Builtin(Unary(lib.tan), 1), "asin" := Builtin(Unary(lib.asin), 1),
                               "acos" := Builtin(Unary(lib.acos), 1), "atan" := Builtin(Unary(lib.atan), 1)]
  {
    var symbols := [NamedConstant("pi", lib.pi), NamedConstant("e", lib.e)];
    var sin, cos, tan := BuiltinFunc("sin", Unary(lib.sin), 1), BuiltinFunc("cos", Unary(lib.cos), 1),
                         BuiltinFunc("tan", Unary(lib.tan), 1);
    var asin, acos, atan := BuiltinFunc("asin", Unary(lib.asin), 1), BuiltinFunc("acos", Unary(lib.acos), 1),
                            BuiltinFunc("atan", Unary(lib.atan), 1);
    var functions := [sin, cos, tan, asin, acos, atan];
    BindingsMapOfTwo(symbols[0], symbols[1]);
    BindingsMapOfTwo(sin, cos);
    BindingsMapSnoc([sin, cos], tan);
    BindingsMapSnoc([sin, cos, tan], asin);
    BindingsMapSnoc([sin, cos, tan, asin], acos);
    BindingsMapSnoc([sin, cos, tan, asin, acos], atan);
    assert [sin, cos] + [tan] == [sin, cos, tan];
    assert [sin, cos, tan] + [asin] == [sin, cos, tan, asin];
    assert [sin, cos, tan, asin] + [acos] == [sin, cos, tan, asin, acos];
    assert [sin, cos, tan, asin, acos] + [atan] == functions;
    assert BindingsMap(functions).Keys == {"sin", "cos", "tan", "asin", "acos", "atan"} by {
      assert functions[0].0 == "sin" && functions[1].0 == "cos" && functions[2].0 == "tan";
      assert functions[3].0 == "asin" && functions[4].0 == "acos" && functions[5].0 == "atan";
    }
    assert forall name :: name in BindingsMap(functions) ==>
             BindingsMap(functions)[name].Builtin? && BindingsMap(functions)[name].argCount == 1 by {
      forall name | name in BindingsMap(functions)
        ensures BindingsMap(functions)[name].Builtin? && BindingsMap(functions)[name].argCount == 1
      {
        BindingsMapValues(functions, name);
      }
    }
    Context(None, BindingsMap(symbols), BindingsMap(functions))
  }

  // ---------------------------------------------------------------------------
  // Lookup along the parent chain

  /** The context and its ancestors, innermost first. */
  function Chain(ctx: Context): (r: seq<Context>)
    decreases ctx
    ensures |r| >= 1 && r[0] == ctx
  {
    if ctx.parent.None? then [ctx] else [ctx] + Chain(ctx.parent.value)
  }

  /** `getSymbol` of `evalIdentifier`. */
  function GetSymbol(name: string, ctx: Context): Option<Symbol>
    decreases ctx
  {
    if name in ctx.symbols then Some(ctx.symbols[name])
    else if ctx.parent.Some? then GetSymbol(name, ctx.parent.value)
    else None
  }

  /** `getFunction` of `evalFunction`. */
  function GetFunction(name: string, ctx: Context): Option<Func>
    decreases ctx
  {
    if name in ctx.functions then Some(ctx.functions[name])
    else if ctx.parent.Some? then GetFunction(name, ctx.parent.value)
    else None
  }

  /** `name` is bound in no context of `chain` before position `i`. */
  predicate UnboundBefore(name: string, chain: seq<Context>, i: nat)
    requires i <= |chain|
  {
    forall j :: 0 <= j < i ==> name !in chain[j].symbols
  }

  /** `name` is bound in no context of `chain`. */
  predicate NowhereBound(name: string, chain: seq<Context>)
  {
    forall i :: 0 <= i < |chain| ==> name !in chain[i].symbols
  }

  /** Position `i` of `chain` holds the first binding of `name`, and it binds `sym`. */
  predicate InnermostAt(name: string, chain: seq<Context>, i: nat, sym: Symbol)
  {
    i < |chain| && UnboundBefore(name, chain, i) && name in chain[i].symbols && chain[i].symbols[name] == sym
  }

  lemma InnermostPrepend(name: string, c: Context, rest: seq<Context>, i: nat, sym: Symbol)
    requires name !in c.symbols && InnermostAt(name, rest, i, sym)
    ensures InnermostAt(name, [c] + rest, i + 1, sym)
  {
    forall j | 0 <= j < i + 1
      ensures name !in ([c] + rest)[j].symbols
    {
      if j > 0 {
        assert ([c] + rest)[j] == rest[j - 1];
      }
    }
    assert ([c] + rest)[i + 1] == rest[i];
  }

  lemma NowhereBoundPrepend(name: string, c: Context, rest: seq<Context>)
    ensures NowhereBound(name, [c] + rest) <==> name !in c.symbols && NowhereBound(name, rest)
  {
    if name !in c.symbols && NowhereBound(name, rest) {
      forall k | 0 <= k < |[c] + rest|
        ensures name !in ([c] + rest)[k].symbols
      {
        if k > 0 {
          assert ([c] + rest)[k] == rest[k - 1];
        }
      }
    } else if NowhereBound(name, [c] + rest) {
      assert ([c] + rest)[0] == c;
      forall k | 0 <= k < |rest|
        ensures name !in rest[k].symbols
      {
        assert ([c] + rest)[k + 1] == rest[k];
      }
    }
  }

  /** The innermost binding wins: a symbol is found exactly when some context of the chain
      binds it, and then it is the value of the first such context. */
  lemma {:induction false} GetSymbolIsInnermost(name: string, ctx: Context)
    ensures GetSymbol(name, ctx).None? <==> NowhereBound(name, Chain(ctx))
    ensures GetSymbol(name, ctx).Some? ==> exists i :: InnermostAt(name, Chain(ctx), i, GetSymbol(name, ctx).value)
    decreases ctx
  {
    if name in ctx.symbols {
      assert InnermostAt(name, Chain(ctx), 0, ctx.symbols[name]);
    } else if ctx.parent.Some? {
      var p := ctx.parent.value;
      GetSymbolIsInnermost(name, p);
      NowhereBoundPrepend(name, ctx, Chain(p));
      if GetSymbol(name, p).Some? {
        var i :| InnermostAt(name, Chain(p), i, GetSymbol(name, p).value);
        InnermostPrepend(name, ctx, Chain(p), i, GetSymbol(name, p).value);
      }
    } else {
      assert Chain(ctx) == [ctx];
    }
  }

  /** Symbols and functions are separate namespaces: replacing every function map along the
      chain leaves symbol lookup unchanged, and replacing every symbol map leaves function
      lookup unchanged. */
  function WithoutFunctions(ctx: Context): (r: Context)
    decreases ctx
    ensures r.symbols == ctx.symbols && r.functions == map[]
  {
    Context(if ctx.parent.None? then None else Some(WithoutFunctions(ctx.parent.value)), ctx.symbols, map[])
  }

  function WithoutSymbols(ctx: Context): (r: Context)
    decreases ctx
    ensures r.functions == ctx.functions && r.symbols == map[]
  {
    Context(if ctx.parent.None? then None else Some(WithoutSymbols(ctx.parent.value)), map[], ctx.functions)
  }

  lemma {:induction false} NamespacesAreSeparate(name: string, ctx: Context)
    ensures GetSymbol(name, WithoutFunctions(ctx)) == GetSymbol(name, ctx)
    ensures GetFunction(name, WithoutSymbols(ctx)) == GetFunction(name, ctx)
    decreases ctx
  {
    if ctx.parent.Some? {
      NamespacesAreSeparate(name, ctx.parent.value);
    }
  }

  // ---------------------------------------------------------------------------
  // Evaluation

  /** `evalIdentifier`: the symbol's value, or "'name' is not defined". */
  function EvalIdentifier(name: string, ctx: Context): (r: Eval<real>)
    ensures r.Err? <==> GetSymbol(name, ctx).None?
    ensures r.Err? ==> r.error == NotDefined(name)
    ensures r.Ok? ==> r.value == GetSymbol(name, ctx).value.value
  {
    match GetSymbol(name, ctx)
    case None => Err(NotDefined(name))
    case Some(Constant(v)) => Ok(v)
  }

  /** No later parameter has the same name as the one at `i`. */
  predicate LastOccurrence(names: seq<string>, i: nat)
    requires i < |names|
  {
    forall k :: i < k < |names| ==> names[k] != names[i]
  }

  /** The context a custom call runs its body in: the parameters bound to the argument
      values, and the CALLER's parent as parent. */
  function CallContext(parent: Option<Context>, argNames: seq<string>, values: seq<real>): (c: Context)
    requires |argNames| == |values|
    ensures c.parent == parent && c.functions == map[]
    ensures c.symbols.Keys == set i | 0 <= i < |argNames| :: argNames[i]
    ensures forall i :: 0 <= i < |argNames| && LastOccurrence(argNames, i) ==>
              c.symbols[argNames[i]] == Constant(values[i])
  {
    var zipped := ListUtil.Zip(argNames, values);
    var symbols := seq(|zipped|, i requires 0 <= i < |zipped| => NamedConstant(zipped[i].0, zipped[i].1.value));
    assert (set i | 0 <= i < |symbols| :: symbols[i].0) == set i | 0 <= i < |argNames| :: argNames[i] by {
      assert forall i :: 0 <= i < |symbols| ==> symbols[i].0 == argNames[i];
    }
    forall i | 0 <= i < |argNames| && LastOccurrence(argNames, i)
      ensures BindingsMap(symbols)[argNames[i]] == Constant(values[i])
    {
      assert forall k :: 0 <= k < |symbols| ==> symbols[k].0 == argNames[k];
      LastBindingWins(symbols, i);
    }
    Context(parent, BindingsMap(symbols), map[])
  }

  /** `evaluate(expr, currentContext)`, with `fuel` bounding the depth of custom calls. */
  function Evaluate(e: Expr, ctx: Context, lib: Library, fuel: nat): Eval<real>
    decreases fuel, e, 1
  {
    match e
    case Identifier(name) => EvalIdentifier(name, ctx)
    case Number(v) => Ok(v)
    case Sum(summands) => FoldSum(summands, 0.0, ctx, lib, fuel)
    case Product(factors) => FoldProduct(factors, 1.0, ctx, lib, fuel)
    case Fraction(numerator, denominator) =>
      var x :- Evaluate(numerator, ctx, lib, fuel);
      var y :- Evaluate(denominator, ctx, lib, fuel);
      if y == 0.0 then Err(NotFinite) else Ok(x / y)
    case Power(base, exponent) =>
      var x :- Evaluate(base, ctx, lib, fuel);
      var y :- Evaluate(exponent, ctx, lib, fuel);
      Ok(lib.pow(x, y))
    case FunctionCall(_, _) => EvalFunction(e, ctx, lib, fuel)
    case Assignment(_, _) => Err(UnsupportedExpression)
  }

  /** `summands.reduce((acc, value) => acc + evaluate(value), acc)`. */
  function FoldSum(summands: seq<Expr>, acc: real, ctx: Context, lib: Library, fuel: nat): Eval<real>
    decreases fuel, summands, 0
  {
    if summands == [] then Ok(acc)
    else
      var v :- Evaluate(summands[0], ctx, lib, fuel);
      FoldSum(summands[1..], acc + v, ctx, lib, fuel)
  }

  /** The floating-point `*` of the product fold, as a real product. */
  function Times(x: real, y: real): real
  {
    x * y
  }

  /** `factors.reduce((acc, value) => acc * evaluate(value), acc)`. */
  function FoldProduct(factors: seq<Expr>, acc: real, ctx: Context, lib: Library, fuel: nat): Eval<real>
    decreases fuel, factors, 0
  {
    if factors == [] then Ok(acc)
    else
      var v :- Evaluate(factors[0], ctx, lib, fuel);
      FoldProduct(factors[1..], Times(acc, v), ctx, lib, fuel)
  }

  /** `expr.args.map(arg => evaluate(arg, currentContext))`; the first throw wins. */
  function EvalArgs(args: seq<Expr>, ctx: Context, lib: Library, fuel: nat): (r: Eval<seq<real>>)
    decreases fuel, args, 0
    ensures r.Ok? ==> |r.value| == |args|
  {
    if args == [] then Ok([])
    else
      var v :- Evaluate(args[0], ctx, lib, fuel);
      var rest :- EvalArgs(args[1..], ctx, lib, fuel);
      Ok([v] + rest)
  }

  /** `evalFunction`: look the function up, evaluate the arguments, then fail on an unknown
      name or a wrong argument count, else apply the builtin or run the custom body. */
  function EvalFunction(call: Expr, ctx: Context, lib: Library, fuel: nat): Eval<real>
    requires call.FunctionCall?
    decreases fuel, call, 0
  {
    var func := GetFunction(call.name, ctx);
    var args :- EvalArgs(call.args, ctx, lib, fuel);
    match func
    case None => Err(NotDefined(call.name))
    case Some(Builtin(f, argCount)) =>
      if argCount != |args| then Err(WrongNumberOfArguments) else Ok(f(args))
    case Some(Custom(body, _, argNames)) =>
      if |argNames| != |args| then Err(WrongNumberOfArguments)
      else if fuel == 0 then Err(OutOfFuel)
      else Evaluate(body, CallContext(ctx.parent, argNames, args), lib, fuel - 1)
  }

  // ---------------------------------------------------------------------------
  // Properties

  /** Reference definitions: the plain sum and product of a list of values. */
  function SumOf(values: seq<real>): real
  {
    if values == [] then 0.0 else values[0] + SumOf(values[1..])
  }

  function ProductOf(values: seq<real>): real
  {
    if values == [] then 1.0 else Times(values[0], ProductOf(values[1..]))
  }

  lemma {:induction false} FoldSumIsSum(summands: seq<Expr>, acc: real, ctx: Context, lib: Library, fuel: nat)
    ensures FoldSum(summands, acc, ctx, lib, fuel) ==
            (match EvalArgs(summands, ctx, lib, fuel)
             case Ok(values) => Ok(acc + SumOf(values))
             case Err(err) => Err(err))
  {
    if summands != [] {
      var first := Evaluate(summands[0], ctx, lib, fuel);
      if first.Ok? {
        FoldSumIsSum(summands[1..], acc + first.value, ctx, lib, fuel);
        var rest := EvalArgs(summands[1..], ctx, lib, fuel);
        if rest.Ok? {
          assert EvalArgs(summands, ctx, lib, fuel) == Ok([first.value] + rest.value);
          assert ([first.value] + rest.value)[1..] == rest.value;
          assert SumOf([first.value] + rest.value) == first.value + SumOf(rest.value);
        }
      }
    }
  }

  lemma {:induction false} FoldProductIsProduct(factors: seq<Expr>, acc: real, ctx: Context, lib: Library, fuel: nat)
    ensures FoldProduct(factors, acc, ctx, lib, fuel) ==
            (match EvalArgs(factors, ctx, lib, fuel)
             case Ok(values) => Ok(Times(acc, ProductOf(values)))
             case Err(err) => Err(err))
  {
    if factors != [] {
      var first := Evaluate(factors[0], ctx, lib, fuel);
      if first.Ok? {
        FoldProductIsProduct(factors[1..], Times(acc, first.value), ctx, lib, fuel);
        var rest := EvalArgs(factors[1..], ctx, lib, fuel);
        if rest.Ok? {
          assert EvalArgs(factors, ctx, lib, fuel) == Ok([first.value] + rest.value);
          assert ([first.value] + rest.value)[1..] == rest.value;
          assert ProductOf([first.value] + rest.value) == Times(first.value, ProductOf(rest.value));
          assert Times(Times(acc, first.value), ProductOf(rest.value)) ==
                 Times(acc, Times(first.value, ProductOf(rest.value)));
        }
      }
    }
  }

  /** A Sum is the sum of its summands' values and a Product the product of its factors'
      values; the first summand or factor that throws decides the error. */
  lemma SumAndProductValues(s: seq<Expr>, ctx: Context, lib: Library, fuel: nat)
    ensures Evaluate(Sum(s), ctx, lib, fuel) ==
            (match EvalArgs(s, ctx, lib, fuel) case Ok(values) => Ok(SumOf(values)) case Err(err) => Err(err))
    ensures Evaluate(Product(s), ctx, lib, fuel) ==
            (match EvalArgs(s, ctx, lib, fuel) case Ok(values) => Ok(ProductOf(values)) case Err(err) => Err(err))
  {
    FoldSumIsSum(s, 0.0, ctx, lib, fuel);
    FoldProductIsProduct(s, 1.0, ctx, lib, fuel);
  }

  /** A Number is its value in every context, and an Assignment is not an expression the
      interpreter evaluates. */
  lemma LeavesAndAssignments(v: real, l: Expr, r: Expr, ctx: Context, lib: Library, fuel: nat)
    ensures Evaluate(Number(v), ctx, lib, fuel) == Ok(v)
    ensures Evaluate(Assignment(l, r), ctx, lib, fuel) == Err(UnsupportedExpression)
  {
  }

  /** `subtraction(l, r)` evaluates to the difference of the two values. */
  lemma SubtractionEvaluates(l: Expr, r: Expr, ctx: Context, lib: Library, fuel: nat, a: real, b: real)
    requires Evaluate(l, ctx, lib, fuel) == Ok(a)
    requires Evaluate(r, ctx, lib, fuel) == Ok(b)
    ensures Evaluate(Subtraction(l, r), ctx, lib, fuel) == Ok(a - b)
  {
    var negated := Product([Number(-1.0), r]);
    assert [Number(-1.0), r][1..] == [r];
    assert [r][1..] == [];
    assert Evaluate(negated, ctx, lib, fuel) == Ok(-b) by {
      assert FoldProduct([Number(-1.0), r], 1.0, ctx, lib, fuel) == FoldProduct([r], -1.0, ctx, lib, fuel);
      assert FoldProduct([r], -1.0, ctx, lib, fuel) == FoldProduct([], -1.0 * b, ctx, lib, fuel);
    }
    assert [l, negated][1..] == [negated];
    assert [negated][1..] == [];
    assert FoldSum([negated], a, ctx, lib, fuel) == Ok(a + -b);
  }

  /** The arguments are evaluated, in the caller's context, before anything else is checked:
      an argument that throws decides the outcome even of a call to an unknown name. */
  lemma ArgumentsComeFirst(name: string, args: seq<Expr>, ctx: Context, lib: Library, fuel: nat)
    requires EvalArgs(args, ctx, lib, fuel).Err?
    ensures Evaluate(FunctionCall(name, args), ctx, lib, fuel) == Err(EvalArgs(args, ctx, lib, fuel).error)
  {
  }

  /** After the arguments: an unknown name, then the argument count, decide the errors. */
  lemma CallErrors(name: string, args: seq<Expr>, ctx: Context, lib: Library, fuel: nat, values: seq<real>)
    requires EvalArgs(args, ctx, lib, fuel) == Ok(values)
    ensures GetFunction(name, ctx).None? ==> Evaluate(FunctionCall(name, args), ctx, lib, fuel) == Err(NotDefined(name))
    ensures GetFunction(name, ctx).Some? && GetFunction(name, ctx).value.Builtin? ==>
              (Evaluate(FunctionCall(name, args), ctx, lib, fuel) == Err(WrongNumberOfArguments) <==>
               GetFunction(name, ctx).value.argCount != |args|)
    ensures GetFunction(name, ctx).Some? && GetFunction(name, ctx).value.Custom? &&
            |GetFunction(name, ctx).value.argNames| != |args| ==>
              Evaluate(FunctionCall(name, args), ctx, lib, fuel) == Err(WrongNumberOfArguments)
  {
  }

  /** A custom body sees its parameters and the caller's ancestors, and nothing of the
      caller's own context: whatever else the caller binds, the call has the same value. */
  lemma CustomBodyIgnoresCallerBindings(name: string, args: seq<Expr>, ctx: Context, lib: Library, fuel: nat,
                                        symbols: map<string, Symbol>, functions: map<string, Func>)
    requires name in ctx.functions && ctx.functions[name].Custom?
    requires name in functions && functions[name] == ctx.functions[name]
    requires EvalArgs(args, Context(ctx.parent, symbols, functions), lib, fuel) == EvalArgs(args, ctx, lib, fuel)
    ensures Evaluate(FunctionCall(name, args), Context(ctx.parent, symbols, functions), lib, fuel) ==
            Evaluate(FunctionCall(name, args), ctx, lib, fuel)
  {
  }

  /** In particular for numeric arguments, which need no context at all. */
  lemma NumericCallIgnoresCallerBindings(name: string, args: seq<Expr>, ctx: Context, lib: Library, fuel: nat,
                                         symbols: map<string, Symbol>, functions: map<string, Func>)
    requires name in ctx.functions && ctx.functions[name].Custom?
    requires name in functions && functions[name] == ctx.functions[name]
    requires forall i :: 0 <= i < |args| ==> args[i].Number?
    ensures Evaluate(FunctionCall(name, args), Context(ctx.parent, symbols, functions), lib, fuel) ==
            Evaluate(FunctionCall(name, args), ctx, lib, fuel)
  {
    NumbersNeedNoContext(args, ctx, Context(ctx.parent, symbols, functions), lib, fuel);
    CustomBodyIgnoresCallerBindings(name, args, ctx, lib, fuel, symbols, functions);
  }

  lemma {:induction false} NumbersNeedNoContext(args: seq<Expr>, ctx: Context, other: Context, lib: Library, fuel: nat)
    requires forall i :: 0 <= i < |args| ==> args[i].Number?
    ensures EvalArgs(args, ctx, lib, fuel) == EvalArgs(args, other, lib, fuel)
    ensures EvalArgs(args, ctx, lib, fuel).Ok?
  {
    if args != [] {
      NumbersNeedNoContext(args[1..], ctx, other, lib, fuel);
    }
  }

  // ---------------------------------------------------------------------------
  // The cases of src/math/evaluate.test.js

  lemma ProductOfTwo(u: Expr, v: Expr, ctx: Context, lib: Library, fuel: nat, a: real, b: real)
    requires Evaluate(u, ctx, lib, fuel) == Ok(a) && Evaluate(v, ctx, lib, fuel) == Ok(b)
    ensures Evaluate(Product([u, v]), ctx, lib, fuel) == Ok(a * b)
  {
    assert [u, v][1..] == [v];
    assert [v][1..] == [];
    assert FoldProduct([u, v], 1.0, ctx, lib, fuel) == FoldProduct([v], Times(1.0, a), ctx, lib, fuel);
    assert FoldProduct([v], Times(1.0, a), ctx, lib, fuel) == Ok(Times(Times(1.0, a), b));
    assert Times(Times(1.0, a), b) == a * b;
  }

  lemma SumOfTwo(u: Expr, v: Expr, ctx: Context, lib: Library, fuel: nat, a: real, b: real)
    requires Evaluate(u, ctx, lib, fuel) == Ok(a) && Evaluate(v, ctx, lib, fuel) == Ok(b)
    ensures Evaluate(Sum([u, v]), ctx, lib, fuel) == Ok(a + b)
  {
    assert [u, v][1..] == [v];
    assert [v][1..] == [];
    assert FoldSum([u, v], 0.0, ctx, lib, fuel) == FoldSum([v], 0.0 + a, ctx, lib, fuel);
    assert FoldSum([v], 0.0 + a, ctx, lib, fuel) == FoldSum([], 0.0 + a + b, ctx, lib, fuel);
  }

  /** One numeric argument evaluates to its value anywhere. */
  lemma OneNumericArgument(v: real, ctx: Context, lib: Library, fuel: nat)
    ensures EvalArgs([Number(v)], ctx, lib, fuel) == Ok([v])
  {
    assert [Number(v)][1..] == [];
    assert [v] + [] == [v];
  }

  /** The body context of a one-parameter call. */
  lemma OneParameter(parent: Option<Context>, name: string, v: real)
    ensures CallContext(parent, [name], [v]).symbols == map[name := Constant(v)]
  {
    var zipped := ListUtil.Zip([name], [v]);
    assert zipped == [(name, Some(v))];
    BindingsMapOfOne(NamedConstant(name, v));
    var symbols := seq(|zipped|, i requires 0 <= i < |zipped| => NamedConstant(zipped[i].0, zipped[i].1.value));
    assert symbols == [NamedConstant(name, v)];
  }

  /** 'x * x - 2 * x' is 15 with x = 5. */
  lemma SquareMinusDouble(lib: Library, fuel: nat)
    ensures Evaluate(Subtraction(Product([Identifier("x"), Identifier("x")]), Product([Number(2.0), Identifier("x")])),
                     ContextOf(DefaultParent, [NamedConstant("x", 5.0)], [], lib), lib, fuel) == Ok(15.0)
  {
    var x := Identifier("x");
    var ctx := ContextOf(DefaultParent, [NamedConstant("x", 5.0)], [], lib);
    BindingsMapOfOne(NamedConstant("x", 5.0));
    assert Evaluate(x, ctx, lib, fuel) == Ok(5.0);
    ProductOfTwo(x, x, ctx, lib, fuel, 5.0, 5.0);
    ProductOfTwo(Number(2.0), x, ctx, lib, fuel, 2.0, 5.0);
    SubtractionEvaluates(Product([x, x]), Product([Number(2.0), x]), ctx, lib, fuel, 25.0, 10.0);
  }

  /** 'a + x * a' is 12 with x = 5 and a = 2. */
  lemma ScaledSum(lib: Library, fuel: nat)
    ensures Evaluate(Sum([Identifier("a"), Product([Identifier("x"), Identifier("a")])]),
                     ContextOf(DefaultParent, [NamedConstant("x", 5.0), NamedConstant("a", 2.0)], [], lib), lib, fuel)
            == Ok(12.0)
  {
    var x, a := Identifier("x"), Identifier("a");
    var ctx := ContextOf(DefaultParent, [NamedConstant("x", 5.0), NamedConstant("a", 2.0)], [], lib);
    BindingsMapOfTwo(NamedConstant("x", 5.0), NamedConstant("a", 2.0));
    assert Evaluate(x, ctx, lib, fuel) == Ok(5.0);
    assert Evaluate(a, ctx, lib, fuel) == Ok(2.0);
    ProductOfTwo(x, a, ctx, lib, fuel, 5.0, 2.0);
    SumOfTwo(a, Product([x, a]), ctx, lib, fuel, 2.0, 10.0);
  }

  /** The definition `f(x) = x * x`. */
  function SquareDefinition(): Expr
  {
    Assignment(FunctionCall("f", [Identifier("x")]), Product([Identifier("x"), Identifier("x")]))
  }

  /** The definition `g(x) = x * f(x)`. */
  function CubeDefinition(): Expr
  {
    Assignment(FunctionCall("g", [Identifier("x")]),
               Product([Identifier("x"), FunctionCall("f", [Identifier("x")])]))
  }

  /** The functions the two definitions make. */
  function Square(): Func
  {
    Custom(Product([Identifier("x"), Identifier("x")]), "f", ["x"])
  }

  function Cube(): Func
  {
    Custom(Product([Identifier("x"), FunctionCall("f", [Identifier("x")])]), "g", ["x"])
  }

  lemma DefinitionsRead()
    ensures CustomFunc(SquareDefinition()) == Some(("f", Square()))
    ensures CustomFunc(CubeDefinition()) == Some(("g", Cube()))
  {
    assert CustomFunc(SquareDefinition()).value.1.argNames == ["x"];
    assert CustomFunc(CubeDefinition()).value.1.argNames == ["x"];
  }

  /** `f(10)` is 100, and `g(5)` is 125 when `f` is defined in the parent of the context
      that defines `g`: g's body runs with g's caller's parent, which holds `f`. */
  lemma CustomFunctionExamples(lib: Library, fuel: nat)
    requires fuel >= 2
    ensures CustomFunc(SquareDefinition()) == Some(("f", Square()))
    ensures CustomFunc(CubeDefinition()) == Some(("g", Cube()))
    ensures Evaluate(FunctionCall("f", [Number(10.0)]), ContextOf(DefaultParent, [], [("f", Square())], lib), lib, fuel)
            == Ok(100.0)
    ensures var upper := ContextOf(DefaultParent, [], [("f", Square())], lib);
            var ctx := ContextOf(Given(Some(upper)), [], [("g", Cube())], lib);
            Evaluate(FunctionCall("g", [Number(5.0)]), ctx, lib, fuel) == Ok(125.0)
  {
    DefinitionsRead();
    SquareCallAtTop(lib, fuel);
    CubeCall(lib, fuel);
  }

  /** `f(10)` in a context below the default one that defines `f`. */
  lemma SquareCallAtTop(lib: Library, fuel: nat)
    requires fuel >= 1
    ensures Evaluate(FunctionCall("f", [Number(10.0)]), ContextOf(DefaultParent, [], [("f", Square())], lib), lib, fuel)
            == Ok(100.0)
  {
    BindingsMapOfOne(("f", Square()));
    SquareCall(10.0, ContextOf(DefaultParent, [], [("f", Square())], lib), lib, fuel);
  }

  /** `g(5)`, with `f` in the parent of the context that defines `g`. */
  lemma CubeCall(lib: Library, fuel: nat)
    requires fuel >= 2
    ensures var upper := ContextOf(DefaultParent, [], [("f", Square())], lib);
            var ctx := ContextOf(Given(Some(upper)), [], [("g", Cube())], lib);
            Evaluate(FunctionCall("g", [Number(5.0)]), ctx, lib, fuel) == Ok(125.0)
  {
    var upper := ContextOf(DefaultParent, [], [("f", Square())], lib);
    var ctx := ContextOf(Given(Some(upper)), [], [("g", Cube())], lib);
    BindingsMapOfOne(("f", Square()));
    BindingsMapOfOne(("g", Cube()));
    CubeOfFive(ctx, lib, fuel);
  }

  /** `g(5)` for `g(x) = x * f(x)`, where `f(x) = x * x` sits in the parent of the context
      that defines `g`. */
  lemma CubeOfFive(c: Context, lib: Library, fuel: nat)
    requires fuel >= 2
    requires c.functions == map["g" := Cube()]
    requires c.parent.Some? && c.parent.value.functions == map["f" := Square()]
    ensures Evaluate(FunctionCall("g", [Number(5.0)]), c, lib, fuel) == Ok(125.0)
  {
    var x := Identifier("x");
    var bodyCtx := CallContext(c.parent, ["x"], [5.0]);
    assert GetFunction("g", c) == Some(Cube());
    OneParameter(c.parent, "x", 5.0);
    OneNumericArgument(5.0, c, lib, fuel);
    var call := FunctionCall("f", [x]);
    assert Evaluate(x, bodyCtx, lib, fuel - 1) == Ok(5.0);
    SquareOfParameter(bodyCtx, 5.0, lib, fuel - 1);
    ProductOfTwo(x, call, bodyCtx, lib, fuel - 1, 5.0, 25.0);
  }

  /** `f(x)` for `f(x) = x * x` defined one context up, with x bound to `v`. */
  lemma SquareOfParameter(c: Context, v: real, lib: Library, fuel: nat)
    requires fuel >= 1
    requires c.functions == map[] && c.symbols == map["x" := Constant(v)]
    requires c.parent.Some? && c.parent.value.functions == map["f" := Square()]
    ensures Evaluate(FunctionCall("f", [Identifier("x")]), c, lib, fuel) == Ok(v * v)
  {
    var x := Identifier("x");
    assert GetFunction("f", c) == Some(Square());
    assert EvalArgs([x], c, lib, fuel) == Ok([v]) by {
      assert [x][1..] == [];
      assert [v] + [] == [v];
    }
    var inner := CallContext(c.parent, ["x"], [v]);
    OneParameter(c.parent, "x", v);
    assert Evaluate(x, inner, lib, fuel - 1) == Ok(v);
    ProductOfTwo(x, x, inner, lib, fuel - 1, v, v);
  }

  /** A call `f(v)` of `f(x) = x * x` from a context that defines `f`. */
  lemma SquareCall(v: real, c: Context, lib: Library, fuel: nat)
    requires fuel >= 1
    requires c.functions == map["f" := Square()]
    ensures Evaluate(FunctionCall("f", [Number(v)]), c, lib, fuel) == Ok(v * v)
  {
    var x := Identifier("x");
    var bodyCtx := CallContext(c.parent, ["x"], [v]);
    OneParameter(c.parent, "x", v);
    OneNumericArgument(v, c, lib, fuel);
    assert Evaluate(x, bodyCtx, lib, fuel - 1) == Ok(v);
    ProductOfTwo(x, x, bodyCtx, lib, fuel - 1, v, v);
  }
}
