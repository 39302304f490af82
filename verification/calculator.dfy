/** The earlier integer calculator, zuzeelik.c: `evaluate_o` applies an
    operator named by a string to two `long` values, `evaluate` folds it over
    the operands of each node of the syntax tree.

    C's `/` truncates toward zero and `%` takes the sign of the dividend;
    Dafny's `/` and `%` are Euclidean, so both are written out.  Overflow and
    division by zero are undefined in C: the tree's value is `None` where any
    step would meet one, and the method that runs the fold requires a value. */
module Calculator {
  import opened Basics
  import opened ParseTree

  const MinLong := -0x8000_0000_0000_0000
  const MaxLong := 0x7fff_ffff_ffff_ffff
  const MinInt := -0x8000_0000
  const MaxInt := 0x7fff_ffff

  predicate InLong(x: int) { MinLong <= x <= MaxLong }
  predicate InInt(x: int) { MinInt <= x <= MaxInt }

  function Abs(x: int): nat { if x < 0 then -x else x }

  /** C's `x / y`: the quotient rounded toward zero. */
  function TruncDiv(x: int, y: int): int
    requires y != 0
  {
    if x >= 0 then (if y > 0 then x / y else -(x / -y))
    else (if y > 0 then -((-x) / y) else (-x) / (-y))
  }

  /** C's `x % y`: what is left after the truncated quotient. */
  function TruncRem(x: int, y: int): int
    requires y != 0
  {
    x - TruncDiv(x, y) * y
  }

  /** The truncated quotient and remainder: the remainder is smaller than
      the divisor in size, is zero or has the sign of the dividend, and the
      quotient never overshoots the dividend. */
  lemma TruncDivision(x: int, y: int)
    requires y != 0
    ensures TruncDiv(x, y) * y + TruncRem(x, y) == x
    ensures Abs(TruncRem(x, y)) < Abs(y)
    ensures TruncRem(x, y) == 0 || (TruncRem(x, y) < 0 <==> x < 0)
    ensures Abs(TruncDiv(x, y) * y) <= Abs(x)
  {
    var t, m := TruncDiv(x, y) * y, Abs(x) % Abs(y);
    TruncProduct(x, y);
    RemainderSides(x, y, t, m);
    assert TruncRem(x, y) == x - t;
  }

  /** Taking from `x` a part `t` that leaves `m`, less than `|y|`, on the
      side of zero `x` is on. */
  lemma RemainderSides(x: int, y: int, t: int, m: int)
    requires 0 <= m < Abs(y) && m <= Abs(x)
    requires x >= 0 ==> t == x - m
    requires x < 0 ==> t == x + m
    ensures Abs(x - t) < Abs(y)
    ensures x - t == 0 || (x - t < 0 <==> x < 0)
    ensures Abs(t) <= Abs(x)
  {
  }

  /** The truncated quotient times the divisor is the dividend less the
      Euclidean remainder of the sizes, on the dividend's side of zero. */
  lemma TruncProduct(x: int, y: int)
    requires y != 0
    ensures 0 <= Abs(x) % Abs(y) < Abs(y) && Abs(x) % Abs(y) <= Abs(x)
    ensures x >= 0 ==> TruncDiv(x, y) * y == x - Abs(x) % Abs(y)
    ensures x < 0 ==> TruncDiv(x, y) * y == x + Abs(x) % Abs(y)
  {
    var a: int, b: int := Abs(x), Abs(y);
    var q := a / b;
    EuclidSplit(a, b);
    SignedProducts(q, b);
    if x >= 0 && y > 0 {
      assert TruncDiv(x, y) == q && y == b;
    } else if x >= 0 {
      assert TruncDiv(x, y) == -q && y == -b;
    } else if y > 0 {
      assert TruncDiv(x, y) == -q && y == b;
    } else {
      assert TruncDiv(x, y) == q && y == -b;
    }
  }

  lemma EuclidSplit(a: int, b: int)
    requires a >= 0 && b > 0
    ensures a / b >= 0 && (a / b) * b == a - a % b
    ensures 0 <= a % b < b && a % b <= a
  {
  }

  lemma SignedProducts(q: int, b: int)
    ensures (-q) * (-b) == q * b && (-q) * b == -(q * b) && q * (-b) == -(q * b)
  {
  }

  predicate IsDivision(o: string) {
    o == "/" || o == "div" || o == "%"
  }

  /** `evaluate_o` (zuzeelik.c:33-40).  A division needs a non-zero divisor;
      `mod` is not an operator here.  The quotient is the one whose remainder
      is smaller than the divisor and lies on the dividend's side of zero,
      which pins it down; `%` is that remainder. */
  function EvaluateO(x: int, o: string, y: int): (r: int)
    requires IsDivision(o) ==> y != 0
    ensures o == "+" || o == "add" ==> r == x + y
    ensures o == "-" || o == "sub" ==> r == x - y
    ensures o == "*" || o == "mul" ==> r == x * y
    ensures o == "/" || o == "div" ==>
              Abs(x - r * y) < Abs(y) && (x - r * y == 0 || (x - r * y < 0 <==> x < 0))
    ensures o == "%" ==>
              Abs(r) < Abs(y) && (r == 0 || (r < 0 <==> x < 0)) && r + TruncDiv(x, y) * y == x
    ensures o !in {"+", "add", "-", "sub", "/", "div", "*", "mul", "%"} ==> r == 0
  {
    if o == "+" || o == "add" then x + y
    else if o == "-" || o == "sub" then x - y
    else if o == "/" || o == "div" then TruncDivision(x, y); TruncDiv(x, y)
    else if o == "*" || o == "mul" then x * y
    else if o == "%" then TruncDivision(x, y); TruncRem(x, y)
    else 0
  }

  /** `/` and `%` together rebuild the dividend, and `div` is `/`. */
  lemma DivisionPair(x: int, y: int)
    requires y != 0
    ensures EvaluateO(x, "/", y) * y + EvaluateO(x, "%", y) == x
    ensures Abs(EvaluateO(x, "%", y)) < Abs(y)
    ensures EvaluateO(x, "%", y) == 0 || (EvaluateO(x, "%", y) < 0 <==> x < 0)
    ensures EvaluateO(x, "div", y) == EvaluateO(x, "/", y)
  {
    TruncDivision(x, y);
  }

  /** An operator string that is none of the known ones, `mod` included,
      yields 0. */
  lemma UnknownOperatorIsZero(x: int, o: string, y: int)
    requires o !in {"+", "add", "-", "sub", "/", "div", "*", "mul", "%"}
    ensures EvaluateO(x, o, y) == 0
    ensures EvaluateO(x, "mod", y) == 0
  {
  }

  predicate IsDigit(c: char) { '0' <= c <= '9' }

  /** The digits at the front of `s`. */
  function LeadingDigits(s: string): (r: string)
    ensures |r| <= |s| && r == s[..|r|]
    ensures forall i :: 0 <= i < |r| ==> IsDigit(r[i])
    ensures |r| < |s| ==> !IsDigit(s[|r|])
  {
    if s != [] && IsDigit(s[0]) then [s[0]] + LeadingDigits(s[1..]) else []
  }

  /** The number a run of decimal digits stands for. */
  function DigitsValue(ds: string): nat
    requires forall i :: 0 <= i < |ds| ==> IsDigit(ds[i])
  {
    if ds == [] then 0
    else
      assert IsDigit(ds[|ds| - 1]);
      DigitsValue(ds[..|ds| - 1]) * 10 + (ds[|ds| - 1] as int - '0' as int)
  }

  /** `atoi` on the text of a number: an optional sign and the leading digits,
      the rest ignored. */
  function Atoi(s: string): int {
    if s != [] && s[0] == '-' then -(DigitsValue(LeadingDigits(s[1..])) as int)
    else if s != [] && s[0] == '+' then DigitsValue(LeadingDigits(s[1..]))
    else DigitsValue(LeadingDigits(s))
  }

  /** The decimal digits of `n`, as `printf("%li")` writes a non-negative one. */
  function NatToString(n: nat): (r: string)
    ensures r != [] && forall i :: 0 <= i < |r| ==> IsDigit(r[i])
  {
    if n < 10 then [('0' as int + n) as char]
    else NatToString(n / 10) + [('0' as int + n % 10) as char]
  }

  lemma {:induction false} DigitsOfNat(n: nat)
    ensures DigitsValue(NatToString(n)) == n
  {
    var s := NatToString(n);
    if n >= 10 {
      DigitsOfNat(n / 10);
      assert s[..|s| - 1] == NatToString(n / 10);
    }
  }

  lemma {:induction false} LeadingDigitsOf(ds: string, rest: string)
    requires forall i :: 0 <= i < |ds| ==> IsDigit(ds[i])
    requires rest == [] || !IsDigit(rest[0])
    ensures LeadingDigits(ds + rest) == ds
  {
    if ds != [] {
      assert (ds + rest)[1..] == ds[1..] + rest;
      LeadingDigitsOf(ds[1..], rest);
    }
  }

  /** `atoi` reads back a written integer, and stops at the first character
      that is not a digit, so `"3.7"` gives 3. */
  lemma AtoiRoundTrip(n: int, rest: string)
    requires rest == [] || !IsDigit(rest[0])
    ensures n >= 0 ==> Atoi(NatToString(n) + rest) == n
    ensures n < 0 ==> Atoi("-" + NatToString(-n) + rest) == n
  {
    var m: nat := Abs(n);
    var ds := NatToString(m);
    DigitsOfNat(m);
    LeadingDigitsOf(ds, rest);
    if n < 0 {
      assert ("-" + ds + rest)[1..] == ds + rest;
    } else {
      assert (ds + rest)[0] == ds[0];
    }
  }

  /** The value `evaluate` computes for a tree (zuzeelik.c:42-62), or `None`
      where it would be undefined: a number outside `int`, a node with fewer
      than three children, an operand list with no non-expression child after
      it, a zero divisor, a quotient outside `long` (for `%` as well), or a
      result outside `long`. */
  function TreeValue(n: Node): Option<int>
    decreases n, 1
  {
    if TagHas(n, "number") then
      var a := Atoi(n.contents);
      if InInt(a) then Some(a) else None
    else if |n.children| < 3 then None
    else match TreeValue(n.children[2])
      case None => None
      case Some(x) => FoldFrom(n, n.children[1].contents, x, 3)
  }

  /** Whether C defines `x o y` on `long`s before its result is checked:
      a division needs a non-zero divisor and a representable quotient, which
      `%` needs too (`LONG_MIN % -1` is undefined although its remainder 0
      would fit). */
  predicate StepDefined(x: int, o: string, y: int) {
    IsDivision(o) ==> y != 0 && InLong(TruncDiv(x, y))
  }

  /** The loop of `evaluate` from child `i` on, with accumulator `x`. */
  function FoldFrom(n: Node, o: string, x: int, i: nat): (r: Option<int>)
    ensures r.Some? ==> i < |n.children|
    decreases n, 0, |n.children| - i
  {
    if i >= |n.children| then None
    else if !TagHas(n.children[i], "expr") then Some(x)
    else match TreeValue(n.children[i])
      case None => None
      case Some(y) =>
        if !StepDefined(x, o, y) then None
        else
          var z := EvaluateO(x, o, y);
          if InLong(z) then FoldFrom(n, o, z, i + 1) else None
  }

  /** Every value `evaluate` is given is a `long`. */
  lemma {:induction false} TreeValueInLong(n: Node)
    ensures TreeValue(n).Some? ==> InLong(TreeValue(n).value)
    decreases n, 1
  {
    if !TagHas(n, "number") && |n.children| >= 3 {
      TreeValueInLong(n.children[2]);
      if TreeValue(n.children[2]).Some? {
        FoldInLong(n, n.children[1].contents, TreeValue(n.children[2]).value, 3);
      }
    }
  }

  lemma {:induction false} FoldInLong(n: Node, o: string, x: int, i: nat)
    requires InLong(x)
    ensures FoldFrom(n, o, x, i).Some? ==> InLong(FoldFrom(n, o, x, i).value)
    decreases |n.children| - i
  {
    if i < |n.children| && TagHas(n.children[i], "expr") {
      match TreeValue(n.children[i])
      case None =>
      case Some(y) =>
        if StepDefined(x, o, y) {
          var z := EvaluateO(x, o, y);
          if InLong(z) {
            FoldInLong(n, o, z, i + 1);
          }
        }
    }
  }

  /** With one operand (the child after it is not an expression) the node's
      value is the operand's: there is no unary minus. */
  lemma SingleOperand(n: Node)
    requires !TagHas(n, "number") && |n.children| >= 4
    requires !TagHas(n.children[3], "expr")
    ensures TreeValue(n) == TreeValue(n.children[2])
  {
  }

  /** With two operands, the operator applied to them. */
  lemma TwoOperands(n: Node, x: int, y: int)
    requires !TagHas(n, "number") && |n.children| >= 5
    requires TreeValue(n.children[2]) == Some(x) && TagHas(n.children[3], "expr")
    requires TreeValue(n.children[3]) == Some(y) && !TagHas(n.children[4], "expr")
    requires StepDefined(x, n.children[1].contents, y)
    requires InLong(EvaluateO(x, n.children[1].contents, y))
    ensures TreeValue(n) == Some(EvaluateO(x, n.children[1].contents, y))
  {
    var o := n.children[1].contents;
    assert FoldFrom(n, o, EvaluateO(x, o, y), 4) == Some(EvaluateO(x, o, y));
  }

  /** `LONG_MIN % -1` has no value: its quotient `2^63` is not a `long`,
      so a node whose accumulator reaches `LONG_MIN` before a `% -1` step is
      undefined, although the remainder would be 0. */
  lemma ModuloOverflow(n: Node, i: nat)
    requires !TagHas(n, "number") && 3 <= i < |n.children|
    requires n.children[1].contents == "%"
    requires TagHas(n.children[i], "expr") && TreeValue(n.children[i]) == Some(-1)
    ensures EvaluateO(MinLong, "%", -1) == 0 && InLong(0)
    ensures FoldFrom(n, "%", MinLong, i) == None
  {
    assert !InLong(TruncDiv(MinLong, -1));
  }

  /** The fold stops at the first child that is not an expression: children
      after it do not matter. */
  lemma {:induction false} FoldStops(n: Node, m: Node, o: string, x: int, i: nat, k: nat)
    requires i <= k < |n.children| && k < |m.children|
    requires n.children[..k + 1] == m.children[..k + 1]
    requires !TagHas(n.children[k], "expr")
    ensures FoldFrom(n, o, x, i) == FoldFrom(m, o, x, i)
    decreases k - i
  {
    assert n.children[i] == n.children[..k + 1][i];
    assert m.children[i] == m.children[..k + 1][i];
    if i < k && TagHas(n.children[i], "expr") {
      match TreeValue(n.children[i])
      case None =>
      case Some(y) =>
        if StepDefined(x, o, y) {
          var z := EvaluateO(x, o, y);
          if InLong(z) {
            FoldStops(n, m, o, z, i + 1, k);
          }
        }
    }
  }

  /** `evaluate` (zuzeelik.c:42-62): a number is read with `atoi`; otherwise
      the operator is the second child, the accumulator starts at the third
      child's value and the loop combines the value of each following child
      while its tag names an expression. */
  method EvaluateTree(n: Node) returns (r: int)
    requires TreeValue(n).Some?
    ensures r == TreeValue(n).value
    decreases n
  {
    if TagHas(n, "number") {
      return Atoi(n.contents);
    }
    var o := n.children[1].contents;
    assert n.children[2] in n.children;
    var x := EvaluateTree(n.children[2]);
    var i := 3;
    while TagHas(n.children[i], "expr")
      invariant 3 <= i < |n.children|
      invariant FoldFrom(n, o, x, i) == TreeValue(n)
      decreases |n.children| - i
    {
      assert n.children[i] in n.children;
      var y := EvaluateTree(n.children[i]);
      x := EvaluateO(x, o, y);
      i := i + 1;
    }
    r := x;
  }
}
