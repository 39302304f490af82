/** The builtins over quotes, `builtin_list` through `builtin_len` in main.c.

    Each builtin receives the argument list `zval` (what is left of the
    sym-expression after its leading symbol was popped) and consumes it.  The
    functions state what each builtin returns for an argument list; the
    methods do it the way the C code does, popping cells in place. */
module ListBuiltins {
  import opened Values
  import opened ZLists

  const HeadArity := "Function 'head' received too many arguments !"
  const HeadType := "Function 'head' received incorrect types !"
  const HeadEmpty := "Function 'head' passed [] !"
  const TailArity := "Function 'tail' received too many arguments ! "
  const TailType := "Function 'tail' received incorrect types ! "
  const TailEmpty := "Function 'tail' passed [] ! "
  const InitArity := "Function 'init' received too many arguments !"
  const InitType := "Function 'init' received incorrect types !"
  const InitEmpty := "Function 'init', passed [] !"
  const ConsArity := "Function 'cons' received incorrect number of arguments !"
  const ConsType := "Function 'cons' received incorrect types in 2nd argument !"
  const JoinType := "Function 'join' passed incorrect types !"
  const LenArity := "Function 'len' received too many arguments ! "
  const LenType := "Function 'len' received incorrect types ! "

  /** `list`: the arguments, unchanged, as a quote. */
  function ListOf(args: seq<Value>): Value {
    Quote(args)
  }

  /** `head`: a quote holding only the first element of the one quote argument. */
  function Head(args: seq<Value>): Value {
    if |args| != 1 then Error(HeadArity)
    else if !args[0].Quote? then Error(HeadType)
    else if |args[0].cells| == 0 then Error(HeadEmpty)
    else Quote([args[0].cells[0]])
  }

  /** `tail`: the one quote argument without its first element. */
  function Tail(args: seq<Value>): Value {
    if |args| != 1 then Error(TailArity)
    else if !args[0].Quote? then Error(TailType)
    else if |args[0].cells| == 0 then Error(TailEmpty)
    else Quote(args[0].cells[1..])
  }

  /** `init`: the one quote argument without its last element. */
  function Init(args: seq<Value>): Value {
    if |args| != 1 then Error(InitArity)
    else if !args[0].Quote? then Error(InitType)
    else if |args[0].cells| == 0 then Error(InitEmpty)
    else Quote(args[0].cells[..|args[0].cells| - 1])
  }

  /** `cons x q`: the quote `q` with `x` in front. */
  function Cons(args: seq<Value>): Value {
    if |args| != 2 then Error(ConsArity)
    else if !args[1].Quote? then Error(ConsType)
    else Quote([args[0]] + args[1].cells)
  }

  predicate AllQuotes(args: seq<Value>) {
    forall i :: 0 <= i < |args| ==> args[i].Quote?
  }

  /** The elements of the quotes `qs`, quote after quote. */
  function Concat(qs: seq<Value>): seq<Value>
    requires AllQuotes(qs)
  {
    if qs == [] then [] else qs[0].cells + Concat(qs[1..])
  }

  /** `join`: all quote arguments concatenated in argument order.  The C code
      pops the first argument unconditionally, so it needs one. */
  function Join(args: seq<Value>): Value
    requires |args| >= 1
  {
    if !AllQuotes(args) then Error(JoinType) else Quote(Concat(args))
  }

  /** `len`: the element count of the one quote argument, as a decimal. */
  function Len(args: seq<Value>): Value {
    if |args| != 1 then Error(LenArity)
    else if !args[0].Quote? then Error(LenType)
    else Decimal(|args[0].cells| as real)
  }

  /** Total number of elements in the quotes `qs`. */
  function Count(qs: seq<Value>): nat
    requires AllQuotes(qs)
  {
    if qs == [] then 0 else |qs[0].cells| + Count(qs[1..])
  }

  // ---------------------------------------------------------------------
  // Properties

  /** `head`, `tail` and `init` fail exactly on a wrong argument count, a
      non-quote argument or the empty quote; otherwise they return a quote. */
  lemma HeadTailInitErrors(args: seq<Value>)
    ensures var ok := |args| == 1 && args[0].Quote? && |args[0].cells| > 0;
      && (Head(args).Error? <==> !ok) && (ok ==> Head(args).Quote?)
      && (Tail(args).Error? <==> !ok) && (ok ==> Tail(args).Quote?)
      && (Init(args).Error? <==> !ok) && (ok ==> Init(args).Quote?)
  {
  }

  /** `cons` fails exactly on a wrong argument count or a non-quote second
      argument; `len` exactly on a wrong count or a non-quote argument. */
  lemma ConsLenErrors(args: seq<Value>)
    ensures Cons(args).Error? <==> !(|args| == 2 && args[1].Quote?)
    ensures Len(args).Error? <==> !(|args| == 1 && args[0].Quote?)
  {
  }

  /** `join` of the head and the tail of a non-empty quote is the quote. */
  lemma HeadTailJoin(q: Value)
    requires q.Quote? && |q.cells| > 0
    ensures Join([Head([q]), Tail([q])]) == q
  {
    var h, t := Head([q]), Tail([q]);
    assert [h, t][1..] == [t];
    assert [t][1..] == [];
    assert Concat([t]) == t.cells + Concat([]);
    assert Concat([h, t]) == h.cells + Concat([t]);
    assert q.cells == [q.cells[0]] + q.cells[1..];
  }

  /** `join` of the init of a non-empty quote and a quote of its last element
      is the quote. */
  lemma InitLastJoin(q: Value)
    requires q.Quote? && |q.cells| > 0
    ensures Join([Init([q]), Quote([q.cells[|q.cells| - 1]])]) == q
  {
    var n := |q.cells|;
    var i, l := Init([q]), Quote([q.cells[n - 1]]);
    assert [i, l][1..] == [l];
    assert [l][1..] == [];
    assert Concat([l]) == l.cells + Concat([]);
    assert Concat([i, l]) == i.cells + Concat([l]);
    assert q.cells == q.cells[..n - 1] + [q.cells[n - 1]];
  }

  /** `head` and `tail` take apart what `cons` put together. */
  lemma ConsHeadTail(x: Value, q: Value)
    requires q.Quote?
    ensures Head([Cons([x, q])]) == Quote([x])
    ensures Tail([Cons([x, q])]) == q
  {
    assert ([x] + q.cells)[1..] == q.cells;
  }

  /** The element count of a join is the sum of the element counts. */
  lemma {:induction false} JoinLen(args: seq<Value>)
    requires |args| >= 1 && AllQuotes(args)
    ensures Len([Join(args)]) == Decimal(Count(args) as real)
  {
    ConcatLength(args);
  }

  lemma {:induction false} ConcatLength(qs: seq<Value>)
    requires AllQuotes(qs)
    ensures |Concat(qs)| == Count(qs)
  {
    if qs != [] {
      ConcatLength(qs[1..]);
    }
  }

  /** Joining `a ++ b` is joining the join of `a` with the join of `b`. */
  lemma {:induction false} ConcatAppend(a: seq<Value>, b: seq<Value>)
    requires AllQuotes(a) && AllQuotes(b)
    ensures AllQuotes(a + b) && Concat(a + b) == Concat(a) + Concat(b)
  {
    if a == [] {
      assert a + b == b;
    } else {
      assert (a + b)[1..] == a[1..] + b;
      ConcatAppend(a[1..], b);
    }
  }

  // ---------------------------------------------------------------------
  // The builtins as main.c runs them

  /** `builtin_list` (main.c:500-503): re-tag the argument list as a quote. */
  method BuiltinList(node: ZList) returns (r: Value)
    modifies node
    ensures r == ListOf(old(node.cells))
    ensures node.kind == QuoteKind && node.cells == old(node.cells)
  {
    node.kind := QuoteKind;
    r := node.Val();
  }

  /** `builtin_head` (main.c:524-537). */
  method BuiltinHead(node: ZList) returns (r: Value)
    modifies node
    ensures r == Head(old(node.cells))
  {
    if |node.cells| != 1 { return Error(HeadArity); }
    if !node.cells[0].Quote? { return Error(HeadType); }
    if |node.cells[0].cells| == 0 { return Error(HeadEmpty); }
    var q := node.Pick(0);
    var val := new ZList.Of(q);
    // delete every element but the first
    while |val.cells| > 1
      invariant val.kind == QuoteKind
      invariant |val.cells| >= 1 && val.cells[0] == q.cells[0]
      decreases |val.cells|
    {
      var dropped := val.Pop(1);
    }
    r := val.Val();
  }

  /** `builtin_tail` (main.c:572-585). */
  method BuiltinTail(node: ZList) returns (r: Value)
    modifies node
    ensures r == Tail(old(node.cells))
  {
    if |node.cells| != 1 { return Error(TailArity); }
    if !node.cells[0].Quote? { return Error(TailType); }
    if |node.cells[0].cells| == 0 { return Error(TailEmpty); }
    var val := node.Pick(0);
    var l := new ZList.Of(val);
    var dropped := l.Pop(0);
    r := l.Val();
  }

  /** `builtin_init` (main.c:555-569). */
  method BuiltinInit(node: ZList) returns (r: Value)
    modifies node
    ensures r == Init(old(node.cells))
  {
    if |node.cells| != 1 { return Error(InitArity); }
    if !node.cells[0].Quote? { return Error(InitType); }
    if |node.cells[0].cells| == 0 { return Error(InitEmpty); }
    var val := node.Pick(0);
    var l := new ZList.Of(val);
    var dropped := l.Pop(|l.cells| - 1);
    r := l.Val();
  }

  /** `builtin_cons` (main.c:540-552). */
  method BuiltinCons(node: ZList) returns (r: Value)
    modifies node
    ensures r == Cons(old(node.cells))
  {
    if |node.cells| != 2 { return Error(ConsArity); }
    if !node.cells[1].Quote? { return Error(ConsType); }
    var x := node.Pop(0);
    var q := node.Pick(0);
    var l := new ZList.Of(q);
    l.Push(x, 0);
    r := l.Val();
  }

  /** `builtin_join` (main.c:588-602): check every argument, then join them
      one after the other onto the first. */
  method BuiltinJoin(node: ZList) returns (r: Value)
    requires |node.cells| >= 1
    modifies node
    ensures r == Join(old(node.cells))
  {
    var i := 0;
    while i < |node.cells|
      invariant 0 <= i <= |node.cells|
      invariant AllQuotes(node.cells[..i])
    {
      if !node.cells[i].Quote? { return Error(JoinType); }
      i := i + 1;
    }
    assert node.cells[..i] == node.cells;
    ghost var args := node.cells;
    var first := node.Pop(0);
    assert node.cells == args[1..];
    var val := new ZList.Of(first);
    while |node.cells| > 0
      invariant fresh(val) && val.kind == QuoteKind
      invariant AllQuotes(node.cells)
      invariant val.cells + Concat(node.cells) == Concat(args)
      decreases |node.cells|
    {
      ghost var before := node.cells;
      var q := node.Pop(0);
      assert node.cells == before[1..];
      var y := new ZList.Of(q);
      val.Join(y);
    }
    r := val.Val();
  }

  /** `builtin_len` (main.c:605-614). */
  method BuiltinLen(node: ZList) returns (r: Value)
    modifies node
    ensures r == Len(old(node.cells))
  {
    if |node.cells| != 1 { return Error(LenArity); }
    if !node.cells[0].Quote? { return Error(LenType); }
    r := Decimal(|node.cells[0].cells| as real);
  }
}
