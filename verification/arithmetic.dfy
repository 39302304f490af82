/** `builtin_operators` of main.c: the arithmetic left fold over decimal
    arguments.  `long double` is modelled by `real`; `fmod` is defined exactly,
    although main.c calls the `double` `fmod`, which first rounds both
    operands to `double`; `pow` is a parameter of type `PowFn`, standing for
    the C library function. */
module Arithmetic {
  import opened Values
  import opened ZLists

  /** The C library's `pow`, left opaque. */
  type PowFn = (real, real) -> real

  const NonDecimal := "Cannot operate on a non-decimal value !!"
  const DivZero := "Division by zero !!??"
  const ModZero := "Modulo by zero !! ??"

  /** `q` rounded toward zero. */
  function Trunc(q: real): int {
    if q >= 0.0 then q.Floor else -((-q).Floor)
  }

  /** C's `fmod`: `x - n * y` where `n` is `x / y` rounded toward zero. */
  function Fmod(x: real, y: real): real
    requires y != 0.0
  {
    x - (Trunc(x / y) as real) * y
  }

  predicate IsDiv(o: string) { o == "/" || o == "div" }
  predicate IsMod(o: string) { o == "%" || o == "mod" }

  /** The operator names the fold knows. */
  predicate KnownOperator(o: string) {
    o in {"+", "add", "-", "sub", "*", "mul", "/", "div", "%", "mod", "^", "pow", "max", "min"}
  }

  /** One step of the fold: combine the accumulator `x` with the next argument `y`
      (the body of the `while` loop in `builtin_operators`). */
  function Step(pow: PowFn, o: string, x: real, y: real): Value {
    if o == "+" || o == "add" then Decimal(x + y)
    else if o == "-" || o == "sub" then Decimal(x - y)
    else if o == "*" || o == "mul" then Decimal(x * y)
    else if IsDiv(o) then (if y == 0.0 then Error(DivZero) else Decimal(x / y))
    else if IsMod(o) then (if y == 0.0 then Error(ModZero) else Decimal(Fmod(x, y)))
    else if o == "^" || o == "pow" then Decimal(pow(x, y))
    else if o == "max" then Decimal(if x < y then y else x)
    else if o == "min" then Decimal(if y < x then y else x)
    else Decimal(x)
  }

  predicate AllDecimal(vs: seq<Value>) {
    forall i :: 0 <= i < |vs| ==> vs[i].Decimal?
  }

  /** The left fold of `Step` from accumulator `x` over `ys`, stopping at the
      first error. */
  function Fold(pow: PowFn, o: string, x: real, ys: seq<Value>): Value
    requires AllDecimal(ys)
    decreases |ys|
  {
    if ys == [] then Decimal(x)
    else
      var s := Step(pow, o, x, ys[0].d);
      if s.Error? then s else Fold(pow, o, s.d, ys[1..])
  }

  /** What `builtin_operators` returns for operator `o` and its arguments. */
  function Operators(pow: PowFn, o: string, args: seq<Value>): Value
    requires |args| >= 1
  {
    if !AllDecimal(args) then Error(NonDecimal)
    else if (o == "-" || o == "sub") && |args| == 1 then Decimal(-args[0].d)
    else Fold(pow, o, args[0].d, args[1..])
  }

  /** Sum of the decimals `vs`. */
  function Sum(vs: seq<Value>): real
    requires AllDecimal(vs)
  {
    if vs == [] then 0.0 else vs[0].d + Sum(vs[1..])
  }

  // ---------------------------------------------------------------------
  // Properties

  /** `fmod` keeps the sign of the dividend and is smaller than the divisor
      in magnitude; the quotient it removes is a whole number. */
  lemma FmodSign(x: real, y: real)
    requires y != 0.0
    ensures x == (Trunc(x / y) as real) * y + Fmod(x, y)
    ensures Fmod(x, y) == 0.0 || (Fmod(x, y) > 0.0 <==> x > 0.0)
    ensures -Abs(y) < Fmod(x, y) < Abs(y)
  {
    var q := x / y;
    var f := q - Trunc(q) as real;
    TruncBounds(q);
    ScaleBy(q, Trunc(q) as real, y);
    assert Fmod(x, y) == f * y;
    ProductSign(f, y);
    ProductSign(q, y);
    ProductBound(f, y);
  }

  /** Rounding toward zero removes less than one and keeps the sign. */
  lemma TruncBounds(q: real)
    ensures q >= 0.0 ==> 0.0 <= q - Trunc(q) as real < 1.0
    ensures q < 0.0 ==> -1.0 < q - Trunc(q) as real <= 0.0
  {
  }

  lemma ScaleBy(q: real, t: real, y: real)
    requires y != 0.0
    ensures (q * y) - t * y == (q - t) * y
  {
  }

  /** Sign of a product. */
  lemma ProductSign(f: real, y: real)
    requires y != 0.0
    ensures f * y == 0.0 <==> f == 0.0
    ensures f * y > 0.0 <==> (f > 0.0 && y > 0.0) || (f < 0.0 && y < 0.0)
  {
  }

  /** A product whose first factor lies strictly between -1 and 1 is smaller
      than the second factor in magnitude. */
  lemma ProductBound(f: real, y: real)
    requires y != 0.0 && -1.0 < f < 1.0
    ensures -Abs(y) < f * y < Abs(y)
  {
    var p := f * y;
    assert (1.0 - f) * y == y - p;
    assert (1.0 + f) * y == y + p;
    if y > 0.0 {
      assert (1.0 - f) * y > 0.0 && (1.0 + f) * y > 0.0;
    } else {
      assert (1.0 - f) * y < 0.0 && (1.0 + f) * y < 0.0;
    }
  }

  function Abs(r: real): real { if r < 0.0 then -r else r }

  /** A non-decimal argument anywhere makes the whole fold an error; with one
      decimal argument `-`/`sub` negates it; the result is always a decimal or
      an error. */
  lemma OperatorsShape(pow: PowFn, o: string, args: seq<Value>)
    requires |args| >= 1
    ensures !AllDecimal(args) ==> Operators(pow, o, args) == Error(NonDecimal)
    ensures AllDecimal(args) && (o == "-" || o == "sub") && |args| == 1 ==>
              Operators(pow, o, args) == Decimal(-args[0].d)
    ensures Operators(pow, o, args).Decimal? || Operators(pow, o, args).Error?
  {
    if AllDecimal(args) {
      FoldShape(pow, o, args[0].d, args[1..]);
    }
  }

  lemma {:induction false} FoldShape(pow: PowFn, o: string, x: real, ys: seq<Value>)
    requires AllDecimal(ys)
    ensures Fold(pow, o, x, ys).Decimal? || Fold(pow, o, x, ys).Error?
    decreases |ys|
  {
    if ys != [] {
      var s := Step(pow, o, x, ys[0].d);
      if !s.Error? {
        FoldShape(pow, o, s.d, ys[1..]);
      }
    }
  }

  /** `+`/`add` adds up all its arguments. */
  lemma OperatorsAdd(pow: PowFn, o: string, args: seq<Value>)
    requires o == "+" || o == "add"
    requires |args| >= 1 && AllDecimal(args)
    ensures Operators(pow, o, args) == Decimal(Sum(args))
  {
    FoldAdd(pow, o, args[0].d, args[1..]);
  }

  lemma {:induction false} FoldAdd(pow: PowFn, o: string, x: real, ys: seq<Value>)
    requires o == "+" || o == "add"
    requires AllDecimal(ys)
    ensures Fold(pow, o, x, ys) == Decimal(x + Sum(ys))
    decreases |ys|
  {
    if ys != [] {
      FoldAdd(pow, o, x + ys[0].d, ys[1..]);
    }
  }

  /** `-`/`sub` with two or more arguments subtracts all the others from the first. */
  lemma OperatorsSub(pow: PowFn, o: string, args: seq<Value>)
    requires o == "-" || o == "sub"
    requires |args| >= 2 && AllDecimal(args)
    ensures Operators(pow, o, args) == Decimal(args[0].d - Sum(args[1..]))
  {
    FoldSub(pow, o, args[0].d, args[1..]);
  }

  lemma {:induction false} FoldSub(pow: PowFn, o: string, x: real, ys: seq<Value>)
    requires o == "-" || o == "sub"
    requires AllDecimal(ys)
    ensures Fold(pow, o, x, ys) == Decimal(x - Sum(ys))
    decreases |ys|
  {
    if ys != [] {
      FoldSub(pow, o, x - ys[0].d, ys[1..]);
    }
  }

  /** Division and modulo fail exactly when some divisor (an argument after
      the first) is zero, with the message of the operator. */
  lemma OperatorsByZero(pow: PowFn, o: string, args: seq<Value>)
    requires IsDiv(o) || IsMod(o)
    requires |args| >= 1 && AllDecimal(args)
    ensures Operators(pow, o, args).Error? <==> exists k :: 1 <= k < |args| && args[k].d == 0.0
    ensures Operators(pow, o, args).Error? ==>
              Operators(pow, o, args) == Error(if IsDiv(o) then DivZero else ModZero)
  {
    FoldByZero(pow, o, args[0].d, args[1..]);
    if exists k :: 1 <= k < |args| && args[k].d == 0.0 {
      var k :| 1 <= k < |args| && args[k].d == 0.0;
      assert args[1..][k - 1].d == 0.0;
    }
  }

  lemma {:induction false} FoldByZero(pow: PowFn, o: string, x: real, ys: seq<Value>)
    requires IsDiv(o) || IsMod(o)
    requires AllDecimal(ys)
    ensures Fold(pow, o, x, ys).Error? <==> exists k :: 0 <= k < |ys| && ys[k].d == 0.0
    ensures Fold(pow, o, x, ys).Error? ==>
              Fold(pow, o, x, ys) == Error(if IsDiv(o) then DivZero else ModZero)
    decreases |ys|
  {
    if ys != [] {
      var s := Step(pow, o, x, ys[0].d);
      if !s.Error? {
        FoldByZero(pow, o, s.d, ys[1..]);
        if exists k :: 0 <= k < |ys| && ys[k].d == 0.0 {
          var k :| 0 <= k < |ys| && ys[k].d == 0.0;
          assert ys[1..][k - 1].d == 0.0;
        }
      }
    }
  }

  /** `max` returns the largest argument and `min` the smallest. */
  lemma OperatorsMaxMin(pow: PowFn, o: string, args: seq<Value>)
    requires o == "max" || o == "min"
    requires |args| >= 1 && AllDecimal(args)
    ensures Operators(pow, o, args).Decimal?
    ensures exists k :: 0 <= k < |args| && args[k].d == Operators(pow, o, args).d
    ensures forall k :: 0 <= k < |args| ==>
              if o == "max" then args[k].d <= Operators(pow, o, args).d
              else Operators(pow, o, args).d <= args[k].d
  {
    var ys := args[1..];
    FoldMaxMin(pow, o, args[0].d, ys);
    var m := Operators(pow, o, args).d;
    if m != args[0].d {
      var k :| 0 <= k < |ys| && ys[k].d == m;
      assert args[k + 1].d == m;
    }
    forall k | 0 <= k < |args|
      ensures if o == "max" then args[k].d <= m else m <= args[k].d
    {
      if k > 0 {
        assert args[k] == ys[k - 1];
      }
    }
  }

  lemma {:induction false} FoldMaxMin(pow: PowFn, o: string, x: real, ys: seq<Value>)
    requires o == "max" || o == "min"
    requires AllDecimal(ys)
    ensures Fold(pow, o, x, ys).Decimal?
    ensures var m := Fold(pow, o, x, ys).d;
      (m == x || exists k :: 0 <= k < |ys| && ys[k].d == m) &&
      (if o == "max" then x <= m else m <= x) &&
      forall k :: 0 <= k < |ys| ==> if o == "max" then ys[k].d <= m else m <= ys[k].d
    decreases |ys|
  {
    if ys != [] {
      var s := Step(pow, o, x, ys[0].d);
      FoldMaxMin(pow, o, s.d, ys[1..]);
      var m := Fold(pow, o, x, ys).d;
      if m != x && m != s.d {
        var k :| 0 <= k < |ys[1..]| && ys[1..][k].d == m;
        assert ys[k + 1].d == m;
      }
      forall k | 0 <= k < |ys|
        ensures if o == "max" then ys[k].d <= m else m <= ys[k].d
      {
        if k > 0 {
          assert ys[k] == ys[1..][k - 1];
        }
      }
    }
  }

  /** A name the fold does not know (one that `builtin_lookup` lets through
      because it is a piece of the operator string, such as "+-") leaves the first argument
      as it is. */
  lemma OperatorsUnknown(pow: PowFn, o: string, args: seq<Value>)
    requires !KnownOperator(o)
    requires |args| >= 1 && AllDecimal(args)
    ensures Operators(pow, o, args) == args[0]
  {
    FoldUnknown(pow, o, args[0].d, args[1..]);
  }

  lemma {:induction false} FoldUnknown(pow: PowFn, o: string, x: real, ys: seq<Value>)
    requires !KnownOperator(o)
    requires AllDecimal(ys)
    ensures Fold(pow, o, x, ys) == Decimal(x)
    decreases |ys|
  {
    if ys != [] {
      FoldUnknown(pow, o, x, ys[1..]);
    }
  }

  // ---------------------------------------------------------------------
  // The builtin as main.c runs it

  /** `builtin_operators` (main.c:617-689): check that every argument is a
      decimal, pop the first as the accumulator, negate it for a lone `-`,
      otherwise pop and combine the others one by one, stopping at a zero
      divisor. */
  method BuiltinOperators(pow: PowFn, node: ZList, o: string) returns (r: Value)
    requires |node.cells| >= 1
    modifies node
    ensures r == Operators(pow, o, old(node.cells))
  {
    var i := 0;
    while i < |node.cells|
      invariant 0 <= i <= |node.cells|
      invariant AllDecimal(node.cells[..i])
    {
      if !node.cells[i].Decimal? {
        return Error(NonDecimal);
      }
      i := i + 1;
    }
    assert node.cells[..i] == node.cells;
    ghost var args := node.cells;
    var x := node.Pop(0);
    assert node.cells == args[1..];
    if (o == "-" || o == "sub") && |node.cells| == 0 {
      return Decimal(-x.d);
    }
    var acc := x.d;
    while |node.cells| > 0
      invariant AllDecimal(node.cells)
      invariant Fold(pow, o, acc, node.cells) == Operators(pow, o, args)
      decreases |node.cells|
    {
      ghost var before := node.cells;
      var y := node.Pop(0);
      assert node.cells == before[1..];
      var s := Step(pow, o, acc, y.d);
      if s.Error? {
        return s;
      }
      acc := s.d;
    }
    r := Decimal(acc);
  }
}
