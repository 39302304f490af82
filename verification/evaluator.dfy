/** The reducer of main.c as a function: what `zval_evaluate` returns.

    `zval_evaluate` takes no environment: a symbol evaluates to itself and a
    sym-expression is reduced by `builtin_lookup`, which picks the builtin by
    the leading symbol's name (main.c:692-783).

    `eval` re-evaluates a quote, so evaluation is not structural recursion.  It
    terminates because evaluation never makes a value bigger (`Size`), which
    every function below promises in its contract. */
module Evaluator {
  import opened Basics
  import opened Values
  import opened ListBuiltins
  import opened Arithmetic

  const NotSymbol := "sym-expression is not starting with a symbol !!"
  const UnknownFunction := "Unknown function !!"
  const EvalArity := "Function 'eval' received too many arguments !"
  const EvalType := "Function 'eval' received incorrect types !"

  /** A value evaluation leaves unchanged: anything but a non-empty sym-expression. */
  predicate IsNormal(v: Value) {
    !v.SymExpr? || v.cells == []
  }

  predicate AllNormal(vs: seq<Value>) {
    forall i :: 0 <= i < |vs| ==> IsNormal(vs[i])
  }

  /** Index of the leftmost error among `vs`, if there is one. */
  function FirstError(vs: seq<Value>): (r: Option<nat>)
    ensures r.Some? ==> r.value < |vs| && vs[r.value].Error? &&
                        forall k :: 0 <= k < r.value ==> !vs[k].Error?
    ensures r.None? ==> forall k :: 0 <= k < |vs| ==> !vs[k].Error?
  {
    if vs == [] then None
    else if vs[0].Error? then Some(0)
    else match FirstError(vs[1..])
      case None => None
      case Some(i) => Some(i + 1)
  }

  /** The one-character operators, as one string. */
  const OperatorChars := "+-/*%^"

  /** The names `builtin_lookup` hands to `builtin_operators`: any piece of
      `OperatorChars` (found with `strstr`) and the word aliases. */
  predicate IsOperatorName(name: string) {
    Contains(OperatorChars, name) ||
    name in {"add", "sub", "mul", "div", "mod", "pow", "min", "max"}
  }

  /** `zval_evaluate` (main.c:773-783). */
  function Eval(pow: PowFn, v: Value): (r: Value)
    ensures Size(r) <= Size(v)
    ensures IsNormal(r)
    decreases Size(v), 4
  {
    if v.SymExpr? then Reduce(pow, EvalAll(pow, v.cells)) else v
  }

  /** The first loop of `zval_evaluate_sym_expression`: every child evaluated,
      left to right. */
  function EvalAll(pow: PowFn, cs: seq<Value>): (r: seq<Value>)
    ensures |r| == |cs| && SizeAll(r) <= SizeAll(cs) && AllNormal(r)
    decreases SizeAll(cs), 5
  {
    if cs == [] then []
    else
      SizePositive(cs[|cs| - 1]);
      var r := EvalAll(pow, cs[..|cs| - 1]) + [Eval(pow, cs[|cs| - 1])];
      assert r[..|r| - 1] == EvalAll(pow, cs[..|cs| - 1]);
      r
  }

  /** The rest of `zval_evaluate_sym_expression` (main.c:743-770), on the
      evaluated children `ys`: the leftmost error wins, an empty list is its
      own value, a single child is the value, otherwise the first child must be
      a symbol naming the builtin applied to the others. */
  function Reduce(pow: PowFn, ys: seq<Value>): (r: Value)
    requires AllNormal(ys)
    ensures Size(r) <= SizeAll(ys) + 1
    ensures IsNormal(r)
    decreases SizeAll(ys), 3
  {
    match FirstError(ys)
    case Some(i) => SizeAllElement(ys, i); ys[i]
    case None =>
      if |ys| == 0 then SymExpr([])
      else if |ys| == 1 then SizeAllElement(ys, 0); ys[0]
      else if !ys[0].Symbol? then Error(NotSymbol)
      else SizeAllFirst(ys); Dispatch(pow, ys[0].name, ys[1..])
  }

  /** `builtin_lookup` (main.c:692-731): the builtin named `name` applied to
      the arguments `args` (never empty: the reducer only dispatches a list of
      two or more). */
  function Dispatch(pow: PowFn, name: string, args: seq<Value>): (r: Value)
    requires |args| >= 1
    ensures Size(r) <= SizeAll(args) + 1
    ensures IsNormal(r)
    decreases SizeAll(args) + 1, 2
  {
    SingleArgumentSizes(args);
    if name == "head" then Head(args)
    else if name == "tail" then Tail(args)
    else if name == "list" then ListOf(args)
    else if name == "eval" then EvalBuiltin(pow, args)
    else if name == "join" then JoinSize(args); Join(args)
    else if name == "init" then Init(args)
    else if name == "cons" then ConsSize(args); Cons(args)
    else if name == "len" then Len(args)
    else if IsOperatorName(name) then OperatorsShape(pow, name, args); Operators(pow, name, args)
    else Error(UnknownFunction)
  }

  /** `builtin_eval` (main.c:510-517): the one quote argument re-tagged as a
      sym-expression and evaluated. */
  function EvalBuiltin(pow: PowFn, args: seq<Value>): (r: Value)
    ensures Size(r) <= SizeAll(args) + 1
    ensures IsNormal(r)
    decreases SizeAll(args) + 1, 1
  {
    if |args| != 1 then Error(EvalArity)
    else if !args[0].Quote? then Error(EvalType)
    else
      assert args[..0] == [];
      Eval(pow, SymExpr(args[0].cells))
  }

  /** `head`, `tail`, `init` and `len` return a normal value no bigger than
      their argument list. */
  lemma SingleArgumentSizes(args: seq<Value>)
    requires |args| >= 1
    ensures Size(Head(args)) <= SizeAll(args) && IsNormal(Head(args))
    ensures Size(Tail(args)) <= SizeAll(args) && IsNormal(Tail(args))
    ensures Size(Init(args)) <= SizeAll(args) && IsNormal(Init(args))
    ensures Size(Len(args)) <= SizeAll(args) && IsNormal(Len(args))
  {
    SizeAllElement(args, 0);
    SizePositive(args[0]);
    if |args| == 1 && args[0].Quote? && |args[0].cells| > 0 {
      SingleQuoteSizes(args);
    }
  }

  lemma SingleQuoteSizes(args: seq<Value>)
    requires |args| == 1 && args[0].Quote? && |args[0].cells| > 0
    ensures Size(Head(args)) <= SizeAll(args)
    ensures Size(Tail(args)) <= SizeAll(args)
    ensures Size(Init(args)) <= SizeAll(args)
  {
    var cs := args[0].cells;
    assert args[..0] == [];
    assert SizeAll(args) == 1 + SizeAll(cs);
    SizeAllElement(cs, 0);
    assert [cs[0]][..0] == [];
    SizeAllFirst(cs);
  }

  /** `join` returns a normal value no bigger than its argument list. */
  lemma JoinSize(args: seq<Value>)
    requires |args| >= 1
    ensures Size(Join(args)) <= SizeAll(args) && IsNormal(Join(args))
  {
    SizeAllElement(args, 0);
    SizePositive(args[0]);
    if AllQuotes(args) {
      ConcatSize(args);
    }
  }

  /** `cons` returns a normal value no bigger than its argument list. */
  lemma ConsSize(args: seq<Value>)
    requires |args| >= 1
    ensures Size(Cons(args)) <= SizeAll(args) && IsNormal(Cons(args))
  {
    SizeAllElement(args, 0);
    SizePositive(args[0]);
    if |args| == 2 && args[1].Quote? {
      ConsQuoteSize(args);
    }
  }

  lemma ConsQuoteSize(args: seq<Value>)
    requires |args| == 2 && args[1].Quote?
    ensures Size(Cons(args)) <= SizeAll(args)
  {
    var x, cs := args[0], args[1].cells;
    SizeAllAppend([x], cs);
    assert [x][..0] == [];
    assert args == [x] + [args[1]];
    SizeAllAppend([x], [args[1]]);
    assert [args[1]][..0] == [];
  }

  /** Joining quotes drops one node per quote. */
  lemma {:induction false} ConcatSize(qs: seq<Value>)
    requires AllQuotes(qs)
    ensures SizeAll(Concat(qs)) + |qs| == SizeAll(qs)
  {
    if qs != [] {
      ConcatSize(qs[1..]);
      SizeAllAppend(qs[0].cells, Concat(qs[1..]));
      SizeAllFirst(qs);
    }
  }

  // ---------------------------------------------------------------------
  // Reduction rules

  /** Decimals, errors, symbols, functions and quotes evaluate to themselves. */
  lemma EvalAtom(pow: PowFn, v: Value)
    requires !v.SymExpr?
    ensures Eval(pow, v) == v
  {
  }

  /** Child `k` of the evaluated list is the value of child `k`. */
  lemma {:induction false} EvalAllAt(pow: PowFn, cs: seq<Value>, k: nat)
    requires k < |cs|
    ensures EvalAll(pow, cs)[k] == Eval(pow, cs[k])
    decreases |cs|
  {
    if k < |cs| - 1 {
      EvalAllAt(pow, cs[..|cs| - 1], k);
    }
  }

  lemma EvalAllCons(pow: PowFn, x: Value, xs: seq<Value>)
    ensures EvalAll(pow, [x] + xs) == [Eval(pow, x)] + EvalAll(pow, xs)
  {
    var l, r := EvalAll(pow, [x] + xs), [Eval(pow, x)] + EvalAll(pow, xs);
    forall k | 0 <= k < |l|
      ensures l[k] == r[k]
    {
      EvalAllAt(pow, [x] + xs, k);
      if k > 0 {
        EvalAllAt(pow, xs, k - 1);
      }
    }
  }

  /** A normal value evaluates to itself. */
  lemma NormalIsFixed(pow: PowFn, v: Value)
    requires IsNormal(v)
    ensures Eval(pow, v) == v
  {
    if v.SymExpr? {
      assert EvalAll(pow, v.cells) == [];
    }
  }

  /** Evaluating twice is evaluating once. */
  lemma EvalIdempotent(pow: PowFn, v: Value)
    ensures Eval(pow, Eval(pow, v)) == Eval(pow, v)
  {
    NormalIsFixed(pow, Eval(pow, v));
  }

  /** Already evaluated children evaluate to themselves. */
  lemma EvalAllNormal(pow: PowFn, ys: seq<Value>)
    requires AllNormal(ys)
    ensures EvalAll(pow, ys) == ys
  {
    forall k | 0 <= k < |ys|
      ensures EvalAll(pow, ys)[k] == ys[k]
    {
      EvalAllAt(pow, ys, k);
      NormalIsFixed(pow, ys[k]);
    }
  }

  /** If child `i` evaluates to an error and no child before it does, the
      sym-expression evaluates to that error. */
  lemma LeftmostError(pow: PowFn, cells: seq<Value>, i: nat)
    requires i < |cells| && Eval(pow, cells[i]).Error?
    requires forall k :: 0 <= k < i ==> !Eval(pow, cells[k]).Error?
    ensures Eval(pow, SymExpr(cells)) == Eval(pow, cells[i])
  {
    var ys := EvalAll(pow, cells);
    EvalAllAt(pow, cells, i);
    forall k | 0 <= k < i
      ensures !ys[k].Error?
    {
      EvalAllAt(pow, cells, k);
    }
  }

  /** `()` is its own value and `(x)` is the value of `x`. */
  lemma Collapse(pow: PowFn, x: Value)
    ensures Eval(pow, SymExpr([])) == SymExpr([])
    ensures Eval(pow, SymExpr([x])) == Eval(pow, x)
  {
    assert EvalAll(pow, []) == [];
    EvalAllCons(pow, x, []);
  }

  /** With two or more children and no error among their values, a first
      value that is not a symbol is an error, and otherwise the builtin it names
      is applied to the values of the other children. */
  lemma Dispatching(pow: PowFn, cells: seq<Value>)
    requires |cells| >= 2
    requires forall k :: 0 <= k < |cells| ==> !Eval(pow, cells[k]).Error?
    ensures !Eval(pow, cells[0]).Symbol? ==> Eval(pow, SymExpr(cells)) == Error(NotSymbol)
    ensures Eval(pow, cells[0]).Symbol? ==>
              Eval(pow, SymExpr(cells)) ==
              Dispatch(pow, Eval(pow, cells[0]).name, EvalAll(pow, cells)[1..])
  {
    var ys := EvalAll(pow, cells);
    forall k | 0 <= k < |cells|
      ensures !ys[k].Error?
    {
      EvalAllAt(pow, cells, k);
    }
    EvalAllAt(pow, cells, 0);
    EvalSymExpr(pow, cells);
    assert FirstError(ys) == None;
    if ys[0].Symbol? {
      ReduceDispatch(pow, ys);
    } else {
      ReduceNotSymbol(pow, ys);
    }
  }

  /** The reducer on evaluated children without an error, two or more of
      them, not led by a symbol. */
  lemma ReduceNotSymbol(pow: PowFn, ys: seq<Value>)
    requires AllNormal(ys) && FirstError(ys) == None
    requires |ys| >= 2 && !ys[0].Symbol?
    ensures Reduce(pow, ys) == Error(NotSymbol)
  {
  }

  /** The reducer on evaluated children: the leftmost error, when there is one. */
  lemma ReduceError(pow: PowFn, ys: seq<Value>, i: nat)
    requires AllNormal(ys) && FirstError(ys) == Some(i)
    ensures Reduce(pow, ys) == ys[i]
  {
  }

  /** The reducer on evaluated children without an error, two or more of them,
      led by a symbol: the builtin dispatch. */
  lemma ReduceDispatch(pow: PowFn, ys: seq<Value>)
    requires AllNormal(ys) && FirstError(ys) == None
    requires |ys| >= 2 && ys[0].Symbol?
    ensures Reduce(pow, ys) == Dispatch(pow, ys[0].name, ys[1..])
  {
  }

  /** `eval (list x1 ... xn)` reduces exactly like `(x1 ... xn)`. */
  lemma ListEvalRoundTrip(pow: PowFn, xs: seq<Value>)
    requires |xs| >= 1
    ensures Eval(pow, SymExpr([Symbol("eval"), SymExpr([Symbol("list")] + xs)])) ==
            Eval(pow, SymExpr(xs))
  {
    var ys := EvalAll(pow, xs);
    var inner := SymExpr([Symbol("list")] + xs);
    var listed := Eval(pow, inner);
    var ws := [Symbol("eval"), listed];
    assert Eval(pow, SymExpr(xs)) == Reduce(pow, ys);
    EvalStep(pow, inner);
    match FirstError(ys)
    case Some(i) =>
      ListStepError(pow, xs, i);
      assert FirstError(ws) == Some(1);
      ReduceError(pow, ws, 1);
      ReduceError(pow, ys, i);
    case None =>
      ListStepQuote(pow, xs);
      assert FirstError(ws) == None;
      ReduceDispatch(pow, ws);
      assert ws[1..] == [Quote(ys)];
      assert Dispatch(pow, "eval", [Quote(ys)]) == EvalBuiltin(pow, [Quote(ys)]);
      assert EvalBuiltin(pow, [Quote(ys)]) == Eval(pow, SymExpr(ys));
      EvalAllNormal(pow, ys);
  }

  /** A list led by an atom other than an error evaluates its tail and
      reduces the atom followed by those values. */
  lemma AtomHeadUnfold(pow: PowFn, a: Value, xs: seq<Value>)
    requires IsNormal(a) && !a.Error? && !a.SymExpr?
    ensures Eval(pow, SymExpr([a] + xs)) == Reduce(pow, [a] + EvalAll(pow, xs))
  {
    EvalAllCons(pow, a, xs);
    EvalSymExpr(pow, [a] + xs);
  }

  /** An error after a leading non-error is still the reducer's result. */
  lemma ReduceErrorAfter(pow: PowFn, a: Value, ys: seq<Value>, i: nat)
    requires IsNormal(a) && !a.Error? && AllNormal(ys) && FirstError(ys) == Some(i)
    ensures AllNormal([a] + ys) && Reduce(pow, [a] + ys) == ys[i]
  {
    var zs := [a] + ys;
    assert zs[1..] == ys;
    assert FirstError(zs) == Some(i + 1);
    ReduceError(pow, zs, i + 1);
  }

  /** `(list x1 ... xn)` is the leftmost error among the values of the `xi`. */
  lemma ListStepError(pow: PowFn, xs: seq<Value>, i: nat)
    requires FirstError(EvalAll(pow, xs)) == Some(i)
    ensures Eval(pow, SymExpr([Symbol("list")] + xs)) == EvalAll(pow, xs)[i]
  {
    AtomHeadUnfold(pow, Symbol("list"), xs);
    ReduceErrorAfter(pow, Symbol("list"), EvalAll(pow, xs), i);
  }

  /** Without an error among the arguments, a symbol-led list dispatches. */
  lemma ReduceDispatchAfter(pow: PowFn, name: string, ys: seq<Value>)
    requires |ys| >= 1 && AllNormal(ys) && FirstError(ys) == None
    ensures AllNormal([Symbol(name)] + ys)
    ensures Reduce(pow, [Symbol(name)] + ys) == Dispatch(pow, name, ys)
  {
    var zs := [Symbol(name)] + ys;
    assert zs[1..] == ys;
    assert FirstError(zs) == None;
    ReduceDispatch(pow, zs);
  }

  /** Without an error among them, `(list x1 ... xn)` is the quote of the
      values of the `xi`. */
  lemma ListStepQuote(pow: PowFn, xs: seq<Value>)
    requires |xs| >= 1 && FirstError(EvalAll(pow, xs)) == None
    ensures Eval(pow, SymExpr([Symbol("list")] + xs)) == Quote(EvalAll(pow, xs))
  {
    SymbolHeadDispatch(pow, "list", xs);
    DispatchList(pow, EvalAll(pow, xs));
  }

  /** A list led by a symbol whose other elements evaluate without error
      is the builtin named by the symbol applied to those values. */
  lemma SymbolHeadDispatch(pow: PowFn, name: string, xs: seq<Value>)
    requires |xs| >= 1 && FirstError(EvalAll(pow, xs)) == None
    ensures Eval(pow, SymExpr([Symbol(name)] + xs)) == Dispatch(pow, name, EvalAll(pow, xs))
  {
    AtomHeadUnfold(pow, Symbol(name), xs);
    ReduceDispatchAfter(pow, name, EvalAll(pow, xs));
  }

  /** The builtin `list` quotes its arguments. */
  lemma DispatchList(pow: PowFn, args: seq<Value>)
    requires |args| >= 1
    ensures Dispatch(pow, "list", args) == Quote(args)
  {
    assert "list"[0] != "head"[0] && "list"[0] != "tail"[0];
  }

  lemma EvalSymExpr(pow: PowFn, cs: seq<Value>)
    ensures Eval(pow, SymExpr(cs)) == Reduce(pow, EvalAll(pow, cs))
  {
  }

  /** `(eval v)` reduces the value of `v`. */
  lemma EvalStep(pow: PowFn, v: Value)
    ensures Eval(pow, SymExpr([Symbol("eval"), v])) == Reduce(pow, [Symbol("eval"), Eval(pow, v)])
  {
    var cs := [Symbol("eval"), v];
    assert EvalAll(pow, [Symbol("eval")]) == [Symbol("eval")] by {
      assert [Symbol("eval")][..0] == [];
    }
    assert cs[..1] == [Symbol("eval")];
    assert EvalAll(pow, cs) == [Symbol("eval"), Eval(pow, v)];
  }

  /** A name that is none of the list builtins goes to the arithmetic fold
      when it is an operator name, and is an unknown function otherwise. */
  lemma DispatchFallback(pow: PowFn, name: string, args: seq<Value>)
    requires |args| >= 1
    requires name !in {"head", "tail", "list", "eval", "join", "init", "cons", "len"}
    ensures IsOperatorName(name) ==> Dispatch(pow, name, args) == Operators(pow, name, args)
    ensures !IsOperatorName(name) ==> Dispatch(pow, name, args) == Error(UnknownFunction)
  {
  }

  /** A piece of the operator string that is no operator hands back the
      first argument, when every argument is a decimal. */
  lemma UnknownOperatorDispatch(pow: PowFn, name: string, args: seq<Value>)
    requires |args| >= 1 && AllDecimal(args)
    requires IsOperatorName(name) && !KnownOperator(name)
    requires name !in {"head", "tail", "list", "eval", "join", "init", "cons", "len"}
    ensures Dispatch(pow, name, args) == args[0]
  {
    DispatchFallback(pow, name, args);
    OperatorsUnknown(pow, name, args);
  }

  /** `+-` is such a piece. */
  lemma OperatorSubstring()
    ensures IsOperatorName("+-") && !KnownOperator("+-")
    ensures "+-" !in {"head", "tail", "list", "eval", "join", "init", "cons", "len"}
  {
    assert IsPrefix("+-", OperatorChars);
  }
}
