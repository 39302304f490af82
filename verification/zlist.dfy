/** The positional list primitives of main.c, on the list `zval` they change
    in place.  `count` and the `cell` array are one `seq` here, so the count
    and the storage can never disagree. */
module ZLists {
  import opened Values

  /** `s` with `x` inserted at index `i`. */
  function Inserted(s: seq<Value>, i: nat, x: Value): (r: seq<Value>)
    requires i <= |s|
    ensures |r| == |s| + 1
  {
    s[..i] + [x] + s[i..]
  }

  /** `s` without its element at index `i`. */
  function Removed(s: seq<Value>, i: nat): (r: seq<Value>)
    requires i < |s|
    ensures |r| == |s| - 1
  {
    s[..i] + s[i + 1..]
  }

  /** Inserting `x` at `i` and then removing index `i` gives back the list,
      and index `i` holds `x` in between: `zval_pop(zval_push(l, x, i), i)`
      returns `x` and restores `l`. */
  lemma PopAfterPush(s: seq<Value>, i: nat, x: Value)
    requires i <= |s|
    ensures Inserted(s, i, x)[i] == x
    ensures Removed(Inserted(s, i, x), i) == s
  {
    var t := Inserted(s, i, x);
    assert t[..i] == s[..i];
    assert t[i + 1..] == s[i..];
  }

  /** Removing index `i` and inserting the removed element at `i` again gives
      back the list: push undoes pop. */
  lemma PushAfterPop(s: seq<Value>, i: nat)
    requires i < |s|
    ensures Inserted(Removed(s, i), i, s[i]) == s
  {
    var t := Removed(s, i);
    assert t[..i] == s[..i];
    assert t[i..] == s[i + 1..];
    assert s == s[..i] + [s[i]] + s[i + 1..];
  }

  /** A list `zval` (`ZVAL_SYM_EXPRESSION` or `ZVAL_QUOTE`) and its `zlist`. */
  class ZList {
    var kind: ListKind
    var cells: seq<Value>

    /** The value this list `zval` currently stands for. */
    function Val(): (v: Value)
      reads this
      ensures IsList(v) && v.cells == cells
    {
      MakeList(kind, cells)
    }

    /** `zval_zlist(zval_create(kind), 0)`: `zval_sym_expression` and
        `zval_quote` create an empty list. */
    constructor Empty(kind: ListKind)
      ensures this.kind == kind && cells == []
    {
      this.kind := kind;
      cells := [];
    }

    /** Takes ownership of a list value (a list popped out of another list). */
    constructor Of(v: Value)
      requires IsList(v)
      ensures Val() == v
    {
      kind := KindOf(v);
      cells := v.cells;
    }

    /** `zval_increase`: append `x` at the end. */
    method Increase(x: Value)
      modifies this
      ensures cells == old(cells) + [x]
      ensures kind == old(kind)
    {
      cells := cells + [x];
    }

    /** `zval_pop`: take out the cell at `i` and shift the rest left. */
    method Pop(i: nat) returns (x: Value)
      requires i < |cells|
      modifies this
      ensures x == old(cells)[i]
      ensures cells == Removed(old(cells), i)
      ensures kind == old(kind)
    {
      x := cells[i];
      cells := cells[..i] + cells[i + 1..];
    }

    /** `zval_push`: shift the cells from `i` right and place `x` at `i`. */
    method Push(x: Value, i: nat)
      requires i <= |cells|
      modifies this
      ensures cells == Inserted(old(cells), i, x)
      ensures kind == old(kind)
    {
      cells := cells[..i] + [x] + cells[i..];
    }

    /** `zval_pick`: pop the cell at `i`; the rest of the list is then
        released, so the caller uses only the returned cell. */
    method Pick(i: nat) returns (x: Value)
      requires i < |cells|
      modifies this
      ensures x == old(cells)[i]
    {
      x := Pop(i);
    }

    /** `zval_join`: move every cell of `y`, first to last, onto the end of
        this list; `y` ends up empty (and is released by the C code). */
    method Join(y: ZList)
      requires y != this
      modifies this, y
      ensures cells == old(cells) + old(y.cells)
      ensures y.cells == []
      ensures kind == old(kind)
    {
      while |y.cells| > 0
        invariant cells + y.cells == old(cells) + old(y.cells)
        invariant kind == old(kind)
        decreases |y.cells|
      {
        var c := y.Pop(0);
        Increase(c);
      }
      assert cells + [] == cells;
    }
  }
}
