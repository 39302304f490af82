# zuzeelik in Dafny

A model of the two generations of the zuzeelik calculator, with proofs.

**main.c, the richer interpreter.** It reads a syntax tree into tagged values (`zval`):
- decimals, errors, symbols and functions;
- sym-expressions and quotes, which own a list of child values.

It evaluates sym-expressions by reducing them with builtins. The list builtins are `list`, `eval`, `head`, `tail`, `init`, `cons`, `join` and `len`. The arithmetic builtin is a fold over decimal arguments. A separate table (`zenv`) binds names to values. A printer renders values as text.

**zuzeelik.c, the earlier integer calculator.** It folds an operator over the integer operands of each tree node.

The model follows what the code does:
- `zval_evaluate` takes no environment, and a symbol evaluates to itself.
- `builtin_lookup` picks a builtin by the leading symbol's name, and nothing ever builds a function value.
- The `zenv` table is a standalone structure that evaluation never consults.
- The reader tests for a `decimal` tag (main.c:278). Only zuzeelik.c tags numbers `number`.

In the C code each `zval` owns its children outright, and `zval_copy` is a deep copy. So a tree of values behaves like an immutable datatype (`Values.Value`). Code that changes a list in place is modelled differently:
- the list primitives (pop, push, pick, join), the builtins that drain lists, the in-place tag flips and the child-evaluation loop;
- all of these act on a class `ZLists.ZList`, which holds a tag and a `seq` of cells.

Each such method is proved equal to a pure function, and the properties are proved about those functions. The structure is the same for the evaluator: the methods of `Interpreter` run the C algorithm on `ZList`s and are proved to compute the functions of `Evaluator`.

`long double` becomes `real`. Three pieces of the C library are parameters:
- `pow`, of type `PowFn`;
- `strtold`, of type `Strtold`, which reports `ERANGE` as `None`;
- the `%Lf` rendering of a decimal, of type `ShowDecimal`.

`fmod` is defined exactly. In zuzeelik.c, C's truncating `/` and `%` are written out. Overflow of `long`, division by zero and `LONG_MIN % -1` make a tree's value `None`.

Modules, in dependency order:
- `Basics`: `Option` and `strstr` as `Contains`.
- `Values`: the `zval` datatype, its size, and `zval_copy`.
- `ZLists`: the list `zval` class and the positional primitives.
- `ListBuiltins`: `list`, `head`, `tail`, `init`, `cons`, `join`, `len`.
- `Arithmetic`: `builtin_operators`.
- `Evaluator`: the reducer as functions.
- `Interpreter`: the reducer as the C code runs it.
- `Environment`: `zenv`.
- `ParseTree`: the syntax tree and `number_of_nodes`.
- `Reader`: `zval_read`.
- `Printer`: `zval_print`.
- `Calculator`: zuzeelik.c.

## Model

| member | source | states |
|---|---|---|
| Values.ListKindRoundTrip | main.c:152-185 | a list `zval` built with a tag keeps that tag and those cells, and every list value is rebuilt from its own tag and cells |
| Values.Copy | main.c:224-257 | `zval_copy` produces a value equal to the original, for every tag and every depth of nesting |
| Values.CopyAll | main.c:247-253 | the child-copy loop yields the same children in the same order |
| ZLists.ZList.Empty | main.c:176-185 | `zval_sym_expression` / `zval_quote` start an empty list of the requested tag |
| ZLists.ZList.Increase | main.c:259-264 | `zval_increase` leaves the old cells followed by `x`, tag unchanged |
| ZLists.ZList.Pop | main.c:440-455 | for `0 <= i < count`, `zval_pop` returns old cell `i` and leaves the old cells without index `i` (count one less), tag unchanged |
| ZLists.ZList.Push | main.c:457-472 | for `0 <= i <= count`, `zval_push` leaves `old[..i] + [x] + old[i..]` (count one more), tag unchanged |
| ZLists.ZList.Pick | main.c:474-478 | `zval_pick` returns old cell `i` |
| ZLists.ZList.Join | main.c:480-490 | `zval_join(x, y)` leaves `x` holding its old cells followed by `y`'s cells in their order, and drains `y` |
| ZLists.PopAfterPush | main.c:440-472 | popping index `i` right after pushing `x` at `i` returns `x` and restores the list |
| ZLists.PushAfterPop | main.c:440-472 | pushing a popped cell back at its index restores the list |
| ListBuiltins.BuiltinList | main.c:500-503 | `builtin_list` returns its argument list re-tagged as a quote, elements unchanged |
| ListBuiltins.BuiltinHead | main.c:524-537 | `builtin_head` computes `Head`: the quote of the first element, or the error for a wrong count, a non-quote or `[]` |
| ListBuiltins.BuiltinTail | main.c:571-585 | `builtin_tail` computes `Tail`: the quote without its first element, or one of its three errors |
| ListBuiltins.BuiltinInit | main.c:555-569 | `builtin_init` computes `Init`: the quote without its last element, or one of its three errors |
| ListBuiltins.BuiltinCons | main.c:540-552 | `builtin_cons` computes `Cons`: the second argument's quote with the first argument at index 0, or an error for a count other than 2 or a non-quote second argument |
| ListBuiltins.BuiltinJoin | main.c:588-602 | `builtin_join` computes `Join`: the concatenation of all quote arguments in argument order, or an error if any argument is not a quote |
| ListBuiltins.BuiltinLen | main.c:605-614 | `builtin_len` computes `Len`: the element count of the one quote argument as a decimal, or an error |
| ListBuiltins.HeadTailInitErrors | main.c:496-498 | `head`, `tail` and `init` return an error exactly when the count is not 1, the argument is not a quote, or the quote is empty; otherwise they return a quote |
| ListBuiltins.ConsLenErrors | main.c:540-552 | `cons` fails exactly on a count other than 2 or a non-quote second argument; `len` exactly on a count other than 1 or a non-quote argument |
| ListBuiltins.HeadTailJoin | main.c:524-602 | joining the head and the tail of a non-empty quote gives back the quote |
| ListBuiltins.InitLastJoin | main.c:555-602 | joining the init of a non-empty quote with the quote of its last element gives back the quote |
| ListBuiltins.ConsHeadTail | main.c:524-552 | `head` of `cons x q` is `[x]` and `tail` of it is `q` |
| ListBuiltins.JoinLen | main.c:588-614 | the `len` of a join is the sum of the lengths of the joined quotes |
| ListBuiltins.ConcatAppend | main.c:588-602 | joining `a ++ b` is the join of `a` followed by the join of `b` |
| Arithmetic.BuiltinOperators | main.c:617-689 | `builtin_operators` computes `Operators`: the non-decimal check, unary minus, then the left fold that stops at the first step error |
| Arithmetic.FmodSign | main.c:661-670 | the `%`/`mod` step removes a whole multiple of the divisor, leaves a remainder smaller than the divisor in size, and the remainder has the dividend's sign |
| Arithmetic.OperatorsShape | main.c:621-634 | any non-decimal argument gives "Cannot operate on a non-decimal value !!"; `-`/`sub` with one argument negates it; the result is always a decimal or an error |
| Arithmetic.OperatorsAdd | main.c:636-643 | `+`/`add` returns the sum of all arguments |
| Arithmetic.OperatorsSub | main.c:636-646 | `-`/`sub` with two or more arguments returns the first minus the sum of the rest |
| Arithmetic.OperatorsByZero | main.c:650-671 | `/`/`div` and `%`/`mod` fail exactly when some argument after the first is zero, with the operator's own message |
| Arithmetic.OperatorsMaxMin | main.c:675-684 | `max` returns an argument no smaller than every argument, `min` one no larger |
| Arithmetic.OperatorsUnknown | main.c:636-686 | an operator name the fold does not know leaves the first argument unchanged |
| Evaluator.Eval | main.c:773-783 | evaluation never makes a value bigger and always ends in a normal value: not a non-empty sym-expression |
| Evaluator.FirstError | main.c:743-748 | the index of the leftmost error, and no error when there is none |
| Evaluator.EvalAtom | main.c:773-783 | decimals, errors, symbols, functions and quotes evaluate to themselves |
| Evaluator.EvalIdempotent | main.c:733-783 | evaluating a result again changes nothing |
| Evaluator.EvalAllCons | main.c:739-741 | the children are evaluated one by one, each on its own, left to right |
| Evaluator.LeftmostError | main.c:743-748 | if a child evaluates to an error, the sym-expression evaluates to the leftmost such error |
| Evaluator.Collapse | main.c:750-758 | `()` evaluates to itself, `(x)` to the value of `x` |
| Evaluator.Dispatching | main.c:760-770 | with two or more children and no error, a non-symbol first value gives "sym-expression is not starting with a symbol !!"; otherwise the named builtin is applied to the values of the other children |
| Evaluator.DispatchFallback | main.c:717-730 | a name that is no list builtin goes to the arithmetic fold when it is a substring of `+-/*%^` or a word alias, and otherwise gives "Unknown function !!" |
| Evaluator.UnknownOperatorDispatch | main.c:717-730 | a substring of `+-/*%^` that is no operator returns the first argument unchanged |
| Evaluator.OperatorSubstring | main.c:717 | `+-` is accepted by the substring test but is no operator |
| Evaluator.ListStepError | main.c:500-503 | `(list x1 … xn)` is the leftmost error among the values of the `xi` |
| Evaluator.ListStepQuote | main.c:500-503 | without an error, `(list x1 … xn)` is the quote of the values of the `xi`, elements unchanged |
| Evaluator.ListEvalRoundTrip | main.c:500-517 | `(eval (list x1 … xn))` evaluates exactly like `(x1 … xn)` |
| Interpreter.Evaluate | main.c:773-783 | `zval_evaluate` returns `Eval` of its argument |
| Interpreter.EvaluateSymExpression | main.c:733-771 | `zval_evaluate_sym_expression` returns `Eval` of the sym-expression it was given |
| Interpreter.EvaluateChildren | main.c:739-741 | the in-place loop leaves every cell replaced by its value |
| Interpreter.ReduceChildren | main.c:743-770 | the error scan, the collapse of empty and one-element lists, and the leading-symbol pop return `Reduce` of the evaluated cells |
| Interpreter.BuiltinLookup | main.c:692-731 | `builtin_lookup` returns `Dispatch` of the name and the arguments |
| Interpreter.BuiltinEval | main.c:510-517 | `builtin_eval` re-tags its one quote argument as a sym-expression and returns its evaluation, or an error for a wrong count or a non-quote |
| Environment.Env.constructor | main.c:367-375 | `zenv_create` starts with no bindings |
| Environment.Env.Retrieve | main.c:394-409 | `zenv_retrieve` returns the value at the first matching name, or "Unbound symbol !!", and changes nothing |
| Environment.Env.Store | main.c:411-438 | `zenv_store` replaces the value in the slot of a bound name with the count unchanged, or appends a new name and value; the names stay distinct, and the table's map gains `name := v` |
| Environment.LookupBindings | main.c:394-409 | first-match lookup answers what the table's map answers |
| Environment.StoreRetrieve | main.c:394-438 | after a store, retrieving the stored name gives the stored value, and every other name keeps its answer |
| ParseTree.NumberOfNodes | main.c:787-799 | `number_of_nodes` returns the number of nodes in the tree |
| ParseTree.ChildCount | main.c:787-799 | every child subtree has fewer nodes than its parent |
| Reader.Read | main.c:266-308 | `zval_read` returns `ReadValue`: a decimal is `strtold`'s value or "Invalid decimal !" on a range error, a symbol its text; the root and sym-expressions become sym-expressions, quotes become quotes; every child except brackets and `regex` nodes is appended in order |
| Reader.ReadSize | main.c:275-308 | the value read from a tree is no bigger than the tree's node count |
| Reader.ReadFunctionFree | main.c:275-308 | reading never builds a function value |
| Printer.Print | main.c:330-340 | `zval_print` writes `Render` of the value |
| Printer.ExpressionPrint | main.c:313-327 | `zval_expression_print` writes the opening bracket, the cells separated by single spaces with none after the last, and the closing bracket |
| Printer.RenderCellsAppend | main.c:313-327 | printing two runs of cells one after the other puts exactly one space between them |
| Printer.QuoteLikeSymExpr | main.c:334-338 | a quote prints like the sym-expression with the same cells, with square brackets in place of round ones |
| Calculator.TruncDivision | zuzeelik.c:36-38 | C's `/` and `%`: quotient times divisor plus remainder is the dividend; the remainder is smaller than the divisor in size and is zero or has the dividend's sign |
| Calculator.EvaluateO | zuzeelik.c:33-40 | `+`/`add` adds, `-`/`sub` subtracts, `*`/`mul` multiplies; `/`/`div` gives the quotient whose remainder is smaller than the divisor and zero or of the dividend's sign; `%` gives that remainder; any other string gives 0 |
| Calculator.DivisionPair | zuzeelik.c:36-38 | `evaluate_o` with `/` and with `%` rebuilds the dividend, and `div` is `/` |
| Calculator.UnknownOperatorIsZero | zuzeelik.c:39 | any other operator string, `mod` included, gives 0 |
| Calculator.AtoiRoundTrip | zuzeelik.c:45-47 | `atoi` reads back a written integer and stops at the first non-digit, so `"3.7"` gives 3 |
| Calculator.TreeValueInLong | zuzeelik.c:42-62 | every defined result of `evaluate` is a `long` |
| Calculator.SingleOperand | zuzeelik.c:50-61 | with one operand, a node's value is that operand's value; there is no unary minus |
| Calculator.TwoOperands | zuzeelik.c:50-61 | with two operands, a node's value is `evaluate_o` applied to their values |
| Calculator.FoldStops | zuzeelik.c:56-60 | the fold stops at the first child whose tag does not name an expression; later children do not matter |
| Calculator.ModuloOverflow | zuzeelik.c:38-61 | `LONG_MIN % -1` leaves the node without a value, although the remainder 0 would fit in a `long` |
| Calculator.EvaluateTree | zuzeelik.c:42-62 | `evaluate` returns the tree's value wherever that value is defined |

## Left out

- The REPL, the line-editing shims, the mpc grammar and parser, and the printing of syntax trees (main.c:1-37, 801-871; zuzeelik.c:5-30, 64-122) are I/O and foreign code. `zval_println` only adds a newline to `zval_print`.
- Memory management is left out because Dafny is garbage collected: `zval_delete`, `zenv_delete`, `malloc`/`realloc`/`free`, the `first_element` left unreleased after dispatch, and string buffers sized with `strlen(s + 1)`. String copies are exact copies.
- Environment.Env.Store: main.c:435 stores the new name's buffer into `val_list`, over the value copied on the line before, and leaves the new `sym_list` slot unset. The model stores the name in `sym_list` and the value in `val_list`, as the comment at main.c:433 intends. A table grown by the code as written cannot be represented by values.
- No code calls `zval_function` (main.c:136-140), and nothing binds builtins in a `zenv`. The model therefore never builds a function value.
- Object identity is not modelled. A list popped out of another list is taken over by a fresh `ZList`, so aliasing between `zval` pointers cannot be expressed.
- `long double` is modelled by `real`. Rounding, overflow to infinity and NaN are not modelled, and division and `fmod` are exact. main.c:669 calls the `double` `fmod`, so C first rounds both operands to `double`; the model does not.
- `pow`, `strtold` and the `%Lf` text of a decimal are C library functions. They are parameters (`PowFn`, `Strtold`, `ShowDecimal`).
- Reader.Read: it requires `Readable`, meaning every container node it reaches has a root, sym-expression or quote tag. For any other tag the C code appends to a null list.
- Calculator.EvaluateTree: it requires a defined tree value. The following are undefined behaviour in C and make `TreeValue` `None`:
  - an `atoi` result outside `int`;
  - a node with fewer than three children;
  - an operand run with no non-expression child after it;
  - a zero divisor;
  - a `/` or `%` whose quotient is outside `long`, so `LONG_MIN % -1` too (C11 6.5.5), although its remainder 0 would fit;
  - a result outside `long`.
- Calculator.Atoi: it reads an optional sign and the leading digits. The leading white space that C's `atoi` skips is not modelled.
- ParseTree.NumberOfNodes: the `int` counter is unbounded, so overflow on trees of more than 2^31 - 1 nodes is not modelled.
