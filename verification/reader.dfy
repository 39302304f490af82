/** `zval_read` (main.c:266-307): the syntax tree turned into a value. */
module Reader {
  import opened Basics
  import opened Values
  import opened ZLists
  import opened ParseTree

  /** `strtold` on a decimal's text: `None` where it reports `ERANGE`. */
  type Strtold = string -> Option<real>

  const InvalidDecimal := "Invalid decimal !"

  /** `zval_read_decimal` (main.c:266-270). */
  function ReadDecimal(strtold: Strtold, text: string): (r: Value)
    ensures r.Decimal? <==> strtold(text).Some?
    ensures r.Decimal? ==> r.d == strtold(text).value
    ensures r.Error? ==> r.msg == InvalidDecimal
    ensures r.Decimal? || r.Error?
  {
    match strtold(text)
    case Some(x) => Decimal(x)
    case None => Error(InvalidDecimal)
  }

  /** A child the reader passes over: a bracket or a `regex` node. */
  predicate Skipped(c: Node) {
    c.contents in {"(", ")", "[", "]"} || c.tag == "regex"
  }

  predicate IsAtom(n: Node) {
    TagHas(n, "decimal") || TagHas(n, "symbol")
  }

  /** The list a container node becomes: the root (`>`) and sym-expressions
      give a sym-expression, a quote a quote, the later test winning. */
  function ContainerKind(tag: string): Option<ListKind> {
    if Contains(tag, "quote") then Some(QuoteKind)
    else if Contains(tag, "sym_expression") || tag == ">" then Some(SymExprKind)
    else None
  }

  /** A tree the reader can turn into a value: every container node it
      reaches has a list tag (otherwise the C code appends to a null list). */
  predicate Readable(n: Node)
    decreases n
  {
    IsAtom(n) ||
    (ContainerKind(n.tag).Some? &&
     forall i :: 0 <= i < |n.children| ==> Skipped(n.children[i]) || Readable(n.children[i]))
  }

  /** The value of a tree. */
  function ReadValue(strtold: Strtold, n: Node): (r: Value)
    requires Readable(n)
    decreases n, 1
  {
    if TagHas(n, "decimal") then ReadDecimal(strtold, n.contents)
    else if TagHas(n, "symbol") then Symbol(n.contents)
    else MakeList(ContainerKind(n.tag).value, ReadAll(strtold, n.children))
  }

  /** The values of the children that are not skipped, in order. */
  function ReadAll(strtold: Strtold, cs: seq<Node>): (r: seq<Value>)
    requires forall i :: 0 <= i < |cs| ==> Skipped(cs[i]) || Readable(cs[i])
    ensures |r| <= |cs|
    decreases cs, 0
  {
    if cs == [] then []
    else
      var last := cs[|cs| - 1];
      var front := ReadAll(strtold, cs[..|cs| - 1]);
      if Skipped(last) then front else front + [ReadValue(strtold, last)]
  }

  /** `zval_read` (main.c:275-307): atoms are read directly; a container
      starts an empty list and appends the value of each child that is not
      skipped. */
  method Read(strtold: Strtold, n: Node) returns (r: Value)
    requires Readable(n)
    ensures r == ReadValue(strtold, n)
    decreases n
  {
    if TagHas(n, "decimal") {
      return ReadDecimal(strtold, n.contents);
    }
    if TagHas(n, "symbol") {
      return Symbol(n.contents);
    }
    var x := new ZList.Empty(ContainerKind(n.tag).value);
    var i := 0;
    while i < |n.children|
      invariant 0 <= i <= |n.children|
      invariant x.kind == ContainerKind(n.tag).value
      invariant x.cells == ReadAll(strtold, n.children[..i])
    {
      var c := n.children[i];
      assert n.children[..i + 1][..i] == n.children[..i];
      if Skipped(c) {
        i := i + 1;
        continue;
      }
      assert c in n.children;
      var v := Read(strtold, c);
      x.Increase(v);
      i := i + 1;
    }
    assert n.children[..i] == n.children;
    r := x.Val();
  }

  /** Reading never makes a value bigger than the tree it reads: the value
      has at most as many parts as the tree has nodes. */
  lemma {:induction false} ReadSize(strtold: Strtold, n: Node)
    requires Readable(n)
    ensures Size(ReadValue(strtold, n)) <= NodeCount(n)
    decreases n, 1
  {
    if !IsAtom(n) {
      ReadAllSize(strtold, n.children);
    }
  }

  lemma {:induction false} ReadAllSize(strtold: Strtold, cs: seq<Node>)
    requires forall i :: 0 <= i < |cs| ==> Skipped(cs[i]) || Readable(cs[i])
    ensures SizeAll(ReadAll(strtold, cs)) <= NodeCountAll(cs)
    decreases cs, 0
  {
    if cs != [] {
      var last := cs[|cs| - 1];
      var front := ReadAll(strtold, cs[..|cs| - 1]);
      ReadAllSize(strtold, cs[..|cs| - 1]);
      if !Skipped(last) {
        ReadSize(strtold, last);
        var r := front + [ReadValue(strtold, last)];
        assert r[..|r| - 1] == front;
      }
    }
  }

  /** No value the reader builds is a function: `ZVAL_FUNCTION` values are
      never made from source text. */
  predicate FunctionFree(v: Value)
    decreases v
  {
    match v
    case Function(_) => false
    case SymExpr(cs) => forall i :: 0 <= i < |cs| ==> FunctionFree(cs[i])
    case Quote(cs) => forall i :: 0 <= i < |cs| ==> FunctionFree(cs[i])
    case _ => true
  }

  lemma {:induction false} ReadFunctionFree(strtold: Strtold, n: Node)
    requires Readable(n)
    ensures FunctionFree(ReadValue(strtold, n))
    decreases n, 1
  {
    if !IsAtom(n) {
      ReadAllFunctionFree(strtold, n.children);
    }
  }

  lemma {:induction false} ReadAllFunctionFree(strtold: Strtold, cs: seq<Node>)
    requires forall i :: 0 <= i < |cs| ==> Skipped(cs[i]) || Readable(cs[i])
    ensures forall i :: 0 <= i < |ReadAll(strtold, cs)| ==> FunctionFree(ReadAll(strtold, cs)[i])
    decreases cs, 0
  {
    if cs != [] {
      ReadAllFunctionFree(strtold, cs[..|cs| - 1]);
      if !Skipped(cs[|cs| - 1]) {
        ReadFunctionFree(strtold, cs[|cs| - 1]);
      }
    }
  }
}
