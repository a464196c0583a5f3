/**
 * The four kinds of graph value of streamgraph/base.py as one datatype, with
 * the structural functions the rest of the model shares.
 */
module Graph {
  import opened Wrappers
  import opened Utils

  /** Stands for a user callable; its body is not modelled. */
  type FuncId = nat

  /** What introspection reports about a callable: its `__name__`, its docstring and its signature. */
  datatype Callable = Callable(func: FuncId, name: string, doc: Option<string>, signature: Signature)

  /**
   * `Node`, `ConditionalNode`, `Layer` (list form) and `Chain`. A ConditionalNode
   * carries every Node field. `nodes` is the `_nodes` attribute.
   */
  datatype Base =
    | Node(id: nat, name: string, description: Option<string>,
           args: seq<string>, positionalOrKeyword: bool, func: FuncId)
    | ConditionalNode(id: nat, name: string, description: Option<string>,
                      args: seq<string>, positionalOrKeyword: bool, func: FuncId,
                      trueNode: Base, falseNode: Base)
    | Layer(id: nat, name: string, description: Option<string>, nodes: seq<Base>)
    | Chain(id: nat, name: string, description: Option<string>, nodes: seq<Base>)

  /** `hasattr(x, "_nodes")`. */
  predicate HasNodes(b: Base)
  {
    b.Layer? || b.Chain?
  }

  /** `b` with its own id replaced (`node.id = ...`). */
  function WithId(b: Base, i: nat): (r: Base)
  {
    match b
    case Node(_, n, d, a, p, f) => Node(i, n, d, a, p, f)
    case ConditionalNode(_, n, d, a, p, f, t, e) => ConditionalNode(i, n, d, a, p, f, t, e)
    case Layer(_, n, d, ns) => Layer(i, n, d, ns)
    case Chain(_, n, d, ns) => Chain(i, n, d, ns)
  }

  /** Number of entities in a tree; the termination measure of every recursion over graphs. */
  function Size(b: Base): (n: nat)
    ensures n >= 1
  {
    match b
    case Node(_, _, _, _, _, _) => 1
    case ConditionalNode(_, _, _, _, _, _, t, f) => 1 + Size(t) + Size(f)
    case Layer(_, _, _, ns) => 1 + SizeSeq(ns)
    case Chain(_, _, _, ns) => 1 + SizeSeq(ns)
  }

  function SizeSeq(ns: seq<Base>): nat
  {
    if ns == [] then 0 else SizeSeq(ns[..|ns| - 1]) + Size(ns[|ns| - 1])
  }

  lemma {:induction false} SizeElem(ns: seq<Base>, i: nat)
    requires i < |ns|
    ensures Size(ns[i]) <= SizeSeq(ns)
  {
    if i < |ns| - 1 {
      SizeElem(ns[..|ns| - 1], i);
    }
  }

  /** The list a branch or a Layer child is lowered through: its `_nodes` if it has them, else itself. */
  function Members(b: Base): (r: seq<Base>)
    ensures SizeSeq(r) <= Size(b)
  {
    if HasNodes(b) then b.nodes else [b]
  }

  /** Every id of a tree, in pre-order (an entity before what it contains). */
  function Ids(b: Base): seq<nat>
  {
    match b
    case Node(i, _, _, _, _, _) => [i]
    case ConditionalNode(i, _, _, _, _, _, t, f) => [i] + Ids(t) + Ids(f)
    case Layer(i, _, _, ns) => [i] + IdsSeq(ns)
    case Chain(i, _, _, ns) => [i] + IdsSeq(ns)
  }

  function IdsSeq(ns: seq<Base>): seq<nat>
  {
    if ns == [] then [] else IdsSeq(ns[..|ns| - 1]) + Ids(ns[|ns| - 1])
  }

  predicate Distinct(s: seq<nat>)
  {
    forall i, j :: 0 <= i < j < |s| ==> s[i] != s[j]
  }

  /** A tree with every id set to 0: what a copy with fresh ids must keep. */
  function Erase(b: Base): Base
  {
    match b
    case Node(_, n, d, a, p, f) => Node(0, n, d, a, p, f)
    case ConditionalNode(_, n, d, a, p, f, t, e) => ConditionalNode(0, n, d, a, p, f, Erase(t), Erase(e))
    case Layer(_, n, d, ns) => Layer(0, n, d, EraseSeq(ns))
    case Chain(_, n, d, ns) => Chain(0, n, d, EraseSeq(ns))
  }

  function EraseSeq(ns: seq<Base>): (r: seq<Base>)
    ensures |r| == |ns|
  {
    if ns == [] then [] else EraseSeq(ns[..|ns| - 1]) + [Erase(ns[|ns| - 1])]
  }

  lemma {:induction false} EraseSeqAt(ns: seq<Base>, i: nat)
    requires i < |ns|
    ensures EraseSeq(ns)[i] == Erase(ns[i])
  {
    if i < |ns| - 1 {
      EraseSeqAt(ns[..|ns| - 1], i);
    }
  }

  /** Erasing ids keeps the kind and the name of an entity. */
  lemma EraseKeepsKindAndName(a: Base, b: Base)
    requires Erase(a) == Erase(b)
    ensures a.name == b.name
    ensures a.Node? == b.Node? && a.ConditionalNode? == b.ConditionalNode?
    ensures a.Layer? == b.Layer? && a.Chain? == b.Chain?
  {
  }

  /**
   * The containment rules construction enforces: a Chain has at least two
   * children, a Layer has no Layer child; recursively.
   */
  predicate Constructible(b: Base)
    decreases Size(b)
  {
    match b
    case Node(_, _, _, _, _, _) => true
    case ConditionalNode(_, _, _, _, _, _, t, f) => Constructible(t) && Constructible(f)
    case Layer(_, _, _, ns) =>
      forall i :: 0 <= i < |ns| ==> !ns[i].Layer? && (SizeElem(ns, i); Constructible(ns[i]))
    case Chain(_, _, _, ns) =>
      |ns| >= 2 && forall i :: 0 <= i < |ns| ==> (SizeElem(ns, i); Constructible(ns[i]))
  }
}
