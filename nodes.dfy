/// The AST: `Nodes::NumberNode` and `Nodes::OpNode`.
module Nodes {
  import opened Syntax

  /** `op` is stored as the parser passes it and has no reader. */
  datatype Node =
    | NumberNode(number: nat)
    | OpNode(lhs: Node, rhs: Node, op: Kind)

  /** The sum of the tree's numbers: what the generated code leaves in `$a0`
      (the code generator adds for every `OpNode`). */
  function Sum(e: Node): int {
    match e
    case NumberNode(n) => n
    case OpNode(l, r, _) => Sum(l) + Sum(r)
  }

  /** The shape `parse_expression` builds: a number, or a number plus a chain,
      nested to the right. */
  predicate IsChain(e: Node) {
    match e
    case NumberNode(_) => true
    case OpNode(l, r, op) => l.NumberNode? && op == PLUS && IsChain(r)
  }

  /** The numbers of a tree from left to right. */
  function Leaves(e: Node): (ns: seq<nat>)
    ensures |ns| > 0
  {
    match e
    case NumberNode(n) => [n]
    case OpNode(l, r, _) => Leaves(l) + Leaves(r)
  }

  /** The right-nested chain over a non-empty list of numbers. */
  function ChainOf(ns: seq<nat>): (e: Node)
    requires |ns| > 0
    ensures IsChain(e) && Leaves(e) == ns
  {
    if |ns| == 1 then NumberNode(ns[0])
    else
      var e := OpNode(NumberNode(ns[0]), ChainOf(ns[1..]), PLUS);
      assert [ns[0]] + ns[1..] == ns;
      e
  }

  /** A chain is fixed by its numbers: the parser has no choice of shape. */
  lemma {:induction false} ChainDeterminedByLeaves(e: Node)
    requires IsChain(e)
    ensures e == ChainOf(Leaves(e))
  {
    match e
    case NumberNode(_) =>
    case OpNode(l, r, _) =>
      ChainDeterminedByLeaves(r);
      assert Leaves(e)[1..] == Leaves(r);
  }

  /** The tokens a tree is read from: its numbers with `+` between them. */
  function TokensOf(e: Node): (ts: seq<Token>)
    ensures |ts| > 0 && ts[0].NumberTok? && ts[|ts| - 1].NumberTok?
    ensures forall i :: 0 <= i < |ts| ==> ts[i] != EofTok
    ensures forall i :: 0 <= i < |ts| - 1 ==> !(ts[i].NumberTok? && ts[i + 1].NumberTok?)
  {
    match e
    case NumberNode(n) => [NumberTok(n)]
    case OpNode(l, r, _) =>
      var a, b := TokensOf(l), TokensOf(r);
      var ts := a + [PlusTok] + b;
      assert forall i :: 0 <= i < |a| ==> ts[i] == a[i];
      assert forall i :: 0 <= i < |b| ==> ts[|a| + 1 + i] == b[i];
      ts
  }

  function Size(e: Node): nat {
    match e
    case NumberNode(_) => 1
    case OpNode(l, r, _) => Size(l) + Size(r) + 1
  }
}
