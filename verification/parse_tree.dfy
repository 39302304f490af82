/** The parser's syntax tree (`mpc_ast_t`) as the code uses it: a tag, the
    matched text and the children.  Tag tests are substring tests. */
module ParseTree {
  import opened Basics

  datatype Node = Node(tag: string, contents: string, children: seq<Node>)

  /** Whether `s` occurs in the tag (`strstr(node->tag, s)`). */
  predicate TagHas(n: Node, s: string) {
    Contains(n.tag, s)
  }

  /** The number of nodes in the tree: the node itself and all nodes below. */
  function NodeCount(n: Node): (r: nat)
    ensures r >= 1
    decreases n, 1
  {
    1 + NodeCountAll(n.children)
  }

  /** The nodes of a sequence of trees, summed from the first to the last. */
  function NodeCountAll(cs: seq<Node>): (r: nat)
    ensures r >= |cs|
    decreases cs, 0
  {
    if cs == [] then 0
    else NodeCountAll(cs[..|cs| - 1]) + NodeCount(cs[|cs| - 1])
  }

  /** Every child has fewer nodes than its parent. */
  lemma {:induction false} ChildCount(n: Node, i: nat)
    requires i < |n.children|
    ensures NodeCount(n.children[i]) < NodeCount(n)
  {
    ElementCount(n.children, i);
  }

  lemma {:induction false} ElementCount(cs: seq<Node>, i: nat)
    requires i < |cs|
    ensures NodeCount(cs[i]) <= NodeCountAll(cs)
    decreases |cs|
  {
    if i < |cs| - 1 {
      ElementCount(cs[..|cs| - 1], i);
    }
  }

  /** `number_of_nodes` (main.c:787-799): a leaf counts one; an inner node
      adds up its children's counts, first to last, onto one. */
  method NumberOfNodes(n: Node) returns (r: nat)
    ensures r == NodeCount(n)
    decreases n
  {
    if |n.children| == 0 {
      return 1;
    }
    var total := 1;
    var i := 0;
    while i < |n.children|
      invariant 0 <= i <= |n.children|
      invariant total == 1 + NodeCountAll(n.children[..i])
    {
      assert n.children[i] in n.children;
      var c := NumberOfNodes(n.children[i]);
      assert n.children[..i + 1][..i] == n.children[..i];
      total := total + c;
      i := i + 1;
    }
    assert n.children[..i] == n.children;
    return total;
  }
}
