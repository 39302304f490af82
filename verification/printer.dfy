/** `zval_print` and `zval_expression_print` (main.c:313-341), producing the
    text instead of writing it.  The text of a decimal (`%Lf`) is a parameter. */
module Printer {
  import opened Values

  type ShowDecimal = real -> string

  const ErrorPrefix := "[error]\nError response: "

  /** The text `zval_print` writes for `v`. */
  function Render(show: ShowDecimal, v: Value): string
    decreases v, 1
  {
    match v
    case Decimal(d) => show(d)
    case Function(_) => "<function>"
    case Error(msg) => ErrorPrefix + msg
    case Symbol(name) => name
    case SymExpr(cs) => "(" + RenderCells(show, cs) + ")"
    case Quote(cs) => "[" + RenderCells(show, cs) + "]"
  }

  /** The cells of a list, separated by single spaces, with no space after
      the last one. */
  function RenderCells(show: ShowDecimal, cs: seq<Value>): string
    decreases cs, 0
  {
    if cs == [] then ""
    else if |cs| == 1 then Render(show, cs[0])
    else RenderCells(show, cs[..|cs| - 1]) + " " + Render(show, cs[|cs| - 1])
  }

  /** Printing two runs of cells one after the other puts exactly one space
      between them. */
  lemma {:induction false} RenderCellsAppend(show: ShowDecimal, a: seq<Value>, b: seq<Value>)
    requires a != [] && b != []
    ensures RenderCells(show, a + b) == RenderCells(show, a) + " " + RenderCells(show, b)
    decreases |b|
  {
    var ab := a + b;
    assert ab[..|ab| - 1] == a + b[..|b| - 1];
    if |b| == 1 {
      assert ab[..|ab| - 1] == a;
    } else {
      RenderCellsAppend(show, a, b[..|b| - 1]);
    }
  }

  /** A quote prints as the sym-expression with the same cells, square
      brackets in place of round ones. */
  lemma QuoteLikeSymExpr(show: ShowDecimal, cs: seq<Value>)
    ensures Render(show, SymExpr(cs)) == "(" + RenderCells(show, cs) + ")"
    ensures Render(show, Quote(cs)) == "[" + RenderCells(show, cs) + "]"
    ensures Render(show, Quote(cs))[1..|Render(show, Quote(cs))| - 1] ==
            Render(show, SymExpr(cs))[1..|Render(show, SymExpr(cs))| - 1]
  {
    var inner := RenderCells(show, cs);
    assert ("(" + inner + ")")[1..|inner| + 1] == inner;
    assert ("[" + inner + "]")[1..|inner| + 1] == inner;
  }

  /** `zval_print` (main.c:330-341). */
  method Print(show: ShowDecimal, v: Value) returns (out: string)
    ensures out == Render(show, v)
    decreases v, 1
  {
    match v
    case Decimal(d) => out := show(d);
    case Function(_) => out := "<function>";
    case Error(msg) => out := ErrorPrefix + msg;
    case Symbol(name) => out := name;
    case SymExpr(cs) => out := ExpressionPrint(show, cs, '(', ')');
    case Quote(cs) => out := ExpressionPrint(show, cs, '[', ']');
  }

  /** `zval_expression_print` (main.c:313-327): the opening bracket, each
      cell followed by a space unless it is the last, the closing bracket. */
  method ExpressionPrint(show: ShowDecimal, cs: seq<Value>, start: char, end: char) returns (out: string)
    ensures out == [start] + RenderCells(show, cs) + [end]
    decreases cs, 0
  {
    out := [start];
    var i := 0;
    while i < |cs|
      invariant 0 <= i <= |cs|
      invariant i == 0 ==> out == [start]
      invariant 0 < i < |cs| ==> out == [start] + RenderCells(show, cs[..i]) + " "
      invariant 0 < i == |cs| ==> out == [start] + RenderCells(show, cs[..i])
    {
      assert cs[i] in cs;
      var s := Print(show, cs[i]);
      assert cs[..i + 1][..i] == cs[..i];
      out := out + s;
      if i != |cs| - 1 {
        out := out + " ";
      }
      i := i + 1;
    }
    if i > 0 {
      assert cs[..i] == cs;
    }
    out := out + [end];
  }
}
