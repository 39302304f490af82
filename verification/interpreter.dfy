/** The evaluator of main.c as the C code runs it: children evaluated in
    place, errors picked out of the list, the leading symbol popped and the
    rest of the list handed to the builtin.  Every method is proved to return
    what the functions of `Evaluator` say. */
module Interpreter {
  import opened Basics
  import opened Values
  import opened ZLists
  import opened ListBuiltins
  import opened Arithmetic
  import opened Evaluator

  /** A list holding the value of each child, position by position, is the
      evaluated list of children. */
  lemma EvalAllPointwise(pow: PowFn, cs: seq<Value>, ys: seq<Value>)
    requires |ys| == |cs|
    requires forall k :: 0 <= k < |cs| ==> ys[k] == Eval(pow, cs[k])
    ensures ys == EvalAll(pow, cs)
  {
    forall k | 0 <= k < |cs|
      ensures ys[k] == EvalAll(pow, cs)[k]
    {
      EvalAllAt(pow, cs, k);
    }
  }

  /** `zval_evaluate` (main.c:773-783): a sym-expression is reduced, every
      other value is its own result. */
  method Evaluate(pow: PowFn, v: Value) returns (r: Value)
    ensures r == Eval(pow, v)
    decreases Size(v), 4
  {
    if v.SymExpr? {
      var node := new ZList.Of(v);
      r := EvaluateSymExpression(pow, node);
    } else {
      r := v;
    }
  }

  /** `zval_evaluate_sym_expression` (main.c:733-771): the children are
      evaluated, then the list is reduced. */
  method EvaluateSymExpression(pow: PowFn, node: ZList) returns (r: Value)
    requires node.kind == SymExprKind
    modifies node
    ensures r == Eval(pow, SymExpr(old(node.cells)))
    decreases SizeAll(node.cells), 6
  {
    ghost var cs := node.cells;
    EvaluateChildren(pow, node);
    EvalSymExpr(pow, cs);
    r := ReduceChildren(pow, node);
  }

  /** The first loop of `zval_evaluate_sym_expression` (main.c:739-741):
      every cell replaced by its value, left to right. */
  method EvaluateChildren(pow: PowFn, node: ZList)
    modifies node
    ensures node.cells == EvalAll(pow, old(node.cells))
    ensures node.kind == old(node.kind)
    decreases SizeAll(node.cells), 5
  {
    ghost var cs := node.cells;
    var i := 0;
    while i < |node.cells|
      invariant 0 <= i <= |cs| && |node.cells| == |cs|
      invariant forall k :: 0 <= k < i ==> node.cells[k] == Eval(pow, cs[k])
      invariant forall k :: i <= k < |cs| ==> node.cells[k] == cs[k]
      invariant node.kind == old(node.kind)
    {
      SizeAllElement(cs, i);
      var e := Evaluate(pow, node.cells[i]);
      node.cells := node.cells[i := e];
      i := i + 1;
    }
    EvalAllPointwise(pow, cs, node.cells);
  }

  /** The rest of `zval_evaluate_sym_expression` (main.c:743-770), on a
      sym-expression whose cells are already evaluated. */
  method ReduceChildren(pow: PowFn, node: ZList) returns (r: Value)
    requires node.kind == SymExprKind && AllNormal(node.cells)
    modifies node
    ensures r == Reduce(pow, old(node.cells))
    decreases SizeAll(node.cells), 3
  {
    ghost var ys := node.cells;
    var i := 0;
    while i < |node.cells|
      invariant 0 <= i <= |ys| && node.cells == ys
      invariant forall k :: 0 <= k < i ==> !ys[k].Error?
    {
      if node.cells[i].Error? {
        assert FirstError(ys) == Some(i);
        ReduceError(pow, ys, i);
        r := node.Pick(i);
        return;
      }
      i := i + 1;
    }
    assert FirstError(ys) == None;

    if |node.cells| == 0 {
      return node.Val();
    }
    if |node.cells| == 1 {
      r := node.Pick(0);
      return;
    }
    var first := node.Pop(0);
    if !first.Symbol? {
      return Error(NotSymbol);
    }
    ReduceDispatch(pow, ys);
    assert node.cells == ys[1..];
    SizeAllFirst(ys);
    SizePositive(ys[0]);
    r := BuiltinLookup(pow, node, first.name);
  }

  /** `builtin_lookup` (main.c:692-731): the builtin named `name`, applied to
      the arguments left in `node`. */
  method BuiltinLookup(pow: PowFn, node: ZList, name: string) returns (r: Value)
    requires |node.cells| >= 1
    modifies node
    ensures r == Dispatch(pow, name, old(node.cells))
    decreases SizeAll(node.cells) + 1, 2
  {
    if name == "head" {
      r := BuiltinHead(node);
    } else if name == "tail" {
      r := BuiltinTail(node);
    } else if name == "list" {
      r := BuiltinList(node);
    } else if name == "eval" {
      r := BuiltinEval(pow, node);
    } else if name == "join" {
      r := BuiltinJoin(node);
    } else if name == "init" {
      r := BuiltinInit(node);
    } else if name == "cons" {
      r := BuiltinCons(node);
    } else if name == "len" {
      r := BuiltinLen(node);
    } else if Contains(OperatorChars, name) || name in {"add", "sub", "mul", "div", "mod", "pow", "min", "max"} {
      r := BuiltinOperators(pow, node, name);
    } else {
      r := Error(UnknownFunction);
    }
  }

  /** `builtin_eval` (main.c:510-517): the one quote argument, re-tagged as a
      sym-expression, evaluated. */
  method BuiltinEval(pow: PowFn, node: ZList) returns (r: Value)
    modifies node
    ensures r == EvalBuiltin(pow, old(node.cells))
    decreases SizeAll(node.cells) + 1, 1
  {
    if |node.cells| != 1 {
      return Error(EvalArity);
    }
    if !node.cells[0].Quote? {
      return Error(EvalType);
    }
    ghost var args := node.cells;
    var q := node.Pick(0);
    assert args[..0] == [];
    assert SizeAll(args) == Size(q) == 1 + SizeAll(q.cells);
    assert Size(SymExpr(q.cells)) == 1 + SizeAll(q.cells);
    r := Evaluate(pow, SymExpr(q.cells));
  }
}
