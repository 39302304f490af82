/** The tagged value `zval` of main.c.

    In the C code every `zval` owns its children exclusively and `zval_copy` is
    deep, so a tree of `zval`s behaves exactly like a tree of immutable values:
    the model uses a datatype.  The list `zval` that the list primitives and
    the builtins change in place is the class `ZList` (module `ZLists`). */
module Values {

  /** The two tags a list `zval` can carry (`ZVAL_SYM_EXPRESSION`, `ZVAL_QUOTE`). */
  datatype ListKind = SymExprKind | QuoteKind

  /** One `zval`.  `long double` becomes `real`; the `zbuiltin` pointer of a
      function value is represented by the builtin's name. */
  datatype Value =
    | Decimal(d: real)
    | Error(msg: string)
    | Symbol(name: string)
    | Function(builtin: string)
    | SymExpr(cells: seq<Value>)
    | Quote(cells: seq<Value>)

  predicate IsList(v: Value) {
    v.SymExpr? || v.Quote?
  }

  /** The list `zval` of tag `kind` holding `cells`. */
  function MakeList(kind: ListKind, cells: seq<Value>): (v: Value)
    ensures IsList(v) && v.cells == cells
    ensures v.Quote? <==> kind == QuoteKind
  {
    match kind
    case SymExprKind => SymExpr(cells)
    case QuoteKind => Quote(cells)
  }

  /** The tag of a list value. */
  function KindOf(v: Value): ListKind
    requires IsList(v)
  {
    if v.Quote? then QuoteKind else SymExprKind
  }

  /** A list value is rebuilt from its tag and its cells, and building one
      keeps the tag: the round trip `ZList.Of` and `ZList.Val` rely on. */
  lemma {:induction false} ListKindRoundTrip(k: ListKind, cs: seq<Value>, v: Value)
    ensures KindOf(MakeList(k, cs)) == k && MakeList(k, cs).cells == cs
    ensures IsList(v) ==> MakeList(KindOf(v), v.cells) == v
  {
  }

  /** Number of `zval` nodes in a value tree (one per node, children included). */
  function Size(v: Value): nat {
    match v
    case SymExpr(cs) => 1 + SizeAll(cs)
    case Quote(cs) => 1 + SizeAll(cs)
    case _ => 1
  }

  function SizeAll(cs: seq<Value>): nat {
    if cs == [] then 0 else SizeAll(cs[..|cs| - 1]) + Size(cs[|cs| - 1])
  }

  lemma {:induction false} SizePositive(v: Value)
    ensures Size(v) >= 1
  {
  }

  lemma {:induction false} SizeAllAppend(a: seq<Value>, b: seq<Value>)
    ensures SizeAll(a + b) == SizeAll(a) + SizeAll(b)
    decreases |b|
  {
    if b == [] {
      assert a + b == a;
    } else {
      assert (a + b)[..|a + b| - 1] == a + b[..|b| - 1];
      SizeAllAppend(a, b[..|b| - 1]);
    }
  }

  /** Splitting off the first child, as `zval_pop(v, 0)` does. */
  lemma SizeAllFirst(cs: seq<Value>)
    requires |cs| > 0
    ensures SizeAll(cs) == Size(cs[0]) + SizeAll(cs[1..])
    ensures SizeAll(cs[1..]) < SizeAll(cs)
  {
    assert cs == [cs[0]] + cs[1..];
    SizeAllAppend([cs[0]], cs[1..]);
    assert [cs[0]][..0] == [];
  }

  /** Every child is no bigger than all children together. */
  lemma {:induction false} SizeAllElement(cs: seq<Value>, i: nat)
    requires i < |cs|
    ensures Size(cs[i]) <= SizeAll(cs)
    decreases |cs|
  {
    if i < |cs| - 1 {
      SizeAllElement(cs[..|cs| - 1], i);
    }
  }

  /** `zval_copy` (main.c:224-257): a fresh node of the same tag with the same
      payload; list children are copied one by one. */
  function Copy(v: Value): (r: Value)
    ensures r == v
  {
    match v
    case Decimal(d) => Decimal(d)
    case Function(f) => Function(f)
    case Error(m) => Error(m)
    case Symbol(s) => Symbol(s)
    case Quote(cs) => Quote(CopyAll(cs))
    case SymExpr(cs) => SymExpr(CopyAll(cs))
  }

  /** The copy loop of `zval_copy`, one child after the other. */
  function CopyAll(cs: seq<Value>): (r: seq<Value>)
    ensures r == cs
  {
    if cs == [] then [] else CopyAll(cs[..|cs| - 1]) + [Copy(cs[|cs| - 1])]
  }
}
