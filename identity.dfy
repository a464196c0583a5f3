/**
 * `_reset_id`: copy a list of graph values giving every entity a fresh id.
 * Ids come from the `IdCounter` instead of `uuid.uuid4`.
 */
module Identity {
  import opened Utils
  import opened Graph

  /** The ids a, a+1, ..., b-1. */
  function Range(a: nat, b: nat): (r: seq<nat>)
    requires a <= b
    ensures |r| == b - a
    ensures forall i :: 0 <= i < |r| ==> r[i] == a + i
  {
    seq(b - a, i => a + i)
  }

  lemma RangeAppend(a: nat, b: nat, c: nat)
    requires a <= b <= c
    ensures Range(a, b) + Range(b, c) == Range(a, c)
  {
    assert forall i :: 0 <= i < c - a ==> (Range(a, b) + Range(b, c))[i] == a + i;
  }

  // ---------------------------------------------------------------------------
  // The relabelling the identity invariant asks for
  // ---------------------------------------------------------------------------

  /**
   * Copies of `ns` with fresh ids drawn from `next` on, in pre-order, and the
   * next unused id. Unlike the code as written (RefreshAsWritten), a branch of a
   * ConditionalNode is relabelled all the way down.
   */
  function Refresh(ns: seq<Base>, next: nat): (r: (seq<Base>, nat))
    ensures |r.0| == |ns|
    ensures next <= r.1
    decreases SizeSeq(ns), 1
  {
    if ns == [] then ([], next)
    else
      var (init, n1) := Refresh(ns[..|ns| - 1], next);
      var (b, n2) := RefreshOne(ns[|ns| - 1], n1);
      (init + [b], n2)
  }

  /** One element of the `_reset_id` loop: its own id first, then what it contains. */
  function RefreshOne(b: Base, next: nat): (r: (Base, nat))
    ensures r.0.id == next && next < r.1
    decreases Size(b), 0
  {
    match b
    case Node(_, n, d, a, p, fn) => (Node(next, n, d, a, p, fn), next + 1)
    case ConditionalNode(_, n, d, a, p, fn, t, f) =>
      var (t', n1) := RefreshOne(t, next + 1);
      var (f', n2) := RefreshOne(f, n1);
      (ConditionalNode(next, n, d, a, p, fn, t', f'), n2)
    case Layer(_, n, d, ns) =>
      var (ns', n1) := Refresh(ns, next + 1);
      (Layer(next, n, d, ns'), n1)
    case Chain(_, n, d, ns) =>
      var (ns', n1) := Refresh(ns, next + 1);
      (Chain(next, n, d, ns'), n1)
  }

  /** The copies carry exactly the ids next .. r.1 - 1, in pre-order. */
  lemma {:induction false} RefreshIds(ns: seq<Base>, next: nat)
    ensures next <= Refresh(ns, next).1
    ensures IdsSeq(Refresh(ns, next).0) == Range(next, Refresh(ns, next).1)
    decreases SizeSeq(ns), 2
  {
    if ns != [] {
      var (init, n1) := Refresh(ns[..|ns| - 1], next);
      RefreshIds(ns[..|ns| - 1], next);
      RefreshOneIds(ns[|ns| - 1], n1);
      var (b, n2) := RefreshOne(ns[|ns| - 1], n1);
      assert (init + [b])[..|init + [b]| - 1] == init;
      RangeAppend(next, n1, n2);
    }
  }

  lemma {:induction false} RefreshOneIds(b: Base, next: nat)
    ensures next < RefreshOne(b, next).1
    ensures Ids(RefreshOne(b, next).0) == Range(next, RefreshOne(b, next).1)
    decreases Size(b), 1
  {
    match b
    case Node(_, _, _, _, _, _) =>
    case ConditionalNode(_, _, _, _, _, _, _, _) =>
      RefreshBranchesIds(b, next);
    case Layer(_, _, _, ns) =>
      var (ns', n1) := Refresh(ns, next + 1);
      RefreshIds(ns, next + 1);
      RangeAppend(next, next + 1, n1);
    case Chain(_, _, _, ns) =>
      var (ns', n1) := Refresh(ns, next + 1);
      RefreshIds(ns, next + 1);
      RangeAppend(next, next + 1, n1);
  }

  /** The ConditionalNode case of RefreshOneIds: its id, then the true branch's, then the false branch's. */
  lemma {:induction false} RefreshBranchesIds(b: Base, next: nat)
    requires b.ConditionalNode?
    ensures next < RefreshOne(b, next).1
    ensures Ids(RefreshOne(b, next).0) == Range(next, RefreshOne(b, next).1)
    decreases Size(b), 0
  {
    var n1 := RefreshOne(b.trueNode, next + 1).1;
    var n2 := RefreshOne(b.falseNode, n1).1;
    RefreshOneIds(b.trueNode, next + 1);
    RefreshOneIds(b.falseNode, n1);
    RangeAppend(next + 1, n1, n2);
    RangeAppend(next, next + 1, n2);
  }

  /** Identity invariant: all ids of the copies are distinct and none is below `next`. */
  lemma RefreshFresh(ns: seq<Base>, next: nat)
    ensures var (r, m) := Refresh(ns, next);
      && Distinct(IdsSeq(r))
      && forall k :: k in IdsSeq(r) ==> next <= k < m
  {
    RefreshIds(ns, next);
  }

  /** The copies have the same length and order, and keep every kind, name and field but the ids. */
  lemma {:induction false} RefreshShape(ns: seq<Base>, next: nat)
    ensures EraseSeq(Refresh(ns, next).0) == EraseSeq(ns)
    decreases SizeSeq(ns), 1
  {
    if ns != [] {
      var (init, n1) := Refresh(ns[..|ns| - 1], next);
      var (b, n2) := RefreshOne(ns[|ns| - 1], n1);
      RefreshShape(ns[..|ns| - 1], next);
      RefreshOneShape(ns[|ns| - 1], n1);
      assert (init + [b])[..|init + [b]| - 1] == init;
    }
  }

  lemma {:induction false} RefreshOneShape(b: Base, next: nat)
    ensures Erase(RefreshOne(b, next).0) == Erase(b)
    decreases Size(b), 0
  {
    match b
    case Node(_, _, _, _, _, _) =>
    case ConditionalNode(_, _, _, _, _, _, t, f) =>
      var (t', n1) := RefreshOne(t, next + 1);
      RefreshOneShape(t, next + 1);
      RefreshOneShape(f, n1);
    case Layer(_, _, _, ns) =>
      RefreshShape(ns, next + 1);
    case Chain(_, _, _, ns) =>
      RefreshShape(ns, next + 1);
  }

  // ---------------------------------------------------------------------------
  // The code as written
  // ---------------------------------------------------------------------------

  /**
   * `_reset_id` as written: a ConditionalNode's branch gets a fresh id and, if
   * it has `_nodes`, fresh ids for those; a branch that is itself a
   * ConditionalNode keeps the ids of its own branches.
   */
  function RefreshAsWritten(ns: seq<Base>, next: nat): (r: (seq<Base>, nat))
    ensures |r.0| == |ns|
    decreases SizeSeq(ns), 1
  {
    if ns == [] then ([], next)
    else
      var (init, n1) := RefreshAsWritten(ns[..|ns| - 1], next);
      var (b, n2) := RefreshOneAsWritten(ns[|ns| - 1], n1);
      (init + [b], n2)
  }

  function RefreshOneAsWritten(b: Base, next: nat): (r: (Base, nat))
    decreases Size(b), 0
  {
    match b
    case Node(_, n, d, a, p, fn) => (Node(next, n, d, a, p, fn), next + 1)
    case ConditionalNode(_, n, d, a, p, fn, t, f) =>
      var (t', n1) := RefreshBranchAsWritten(t, next + 1);
      var (f', n2) := RefreshBranchAsWritten(f, n1);
      (ConditionalNode(next, n, d, a, p, fn, t', f'), n2)
    case Layer(_, n, d, ns) =>
      var (ns', n1) := RefreshAsWritten(ns, next + 1);
      (Layer(next, n, d, ns'), n1)
    case Chain(_, n, d, ns) =>
      var (ns', n1) := RefreshAsWritten(ns, next + 1);
      (Chain(next, n, d, ns'), n1)
  }

  /** A branch copy: a fresh id, then fresh ids for its `_nodes` if it has any. */
  function RefreshBranchAsWritten(b: Base, next: nat): (r: (Base, nat))
    decreases Size(b), 0
  {
    match b
    case Layer(_, n, d, ns) =>
      var (ns', n1) := RefreshAsWritten(ns, next + 1);
      (Layer(next, n, d, ns'), n1)
    case Chain(_, n, d, ns) =>
      var (ns', n1) := RefreshAsWritten(ns, next + 1);
      (Chain(next, n, d, ns'), n1)
    case _ => (WithId(b, next), next + 1)
  }

  /**
   * Copying a ConditionalNode whose true branch is a ConditionalNode twice, as
   * `x >> x` does, gives two copies whose innermost true branches share one id.
   */
  lemma AsWrittenCopiesShareIds(x: Base, next: nat)
    requires x.ConditionalNode? && x.trueNode.ConditionalNode?
    ensures var r := RefreshAsWritten([x, x], next).0;
      && r[0].ConditionalNode? && r[0].trueNode.ConditionalNode?
      && r[1].ConditionalNode? && r[1].trueNode.ConditionalNode?
      && r[0].trueNode.trueNode == x.trueNode.trueNode
      && r[1].trueNode.trueNode == x.trueNode.trueNode
  {
    assert [x, x][..1] == [x] && [x][..0] == [];
    var (i0, m0) := RefreshAsWritten([x][..0], next);
    assert i0 == [] && m0 == next;
    var (a, n1) := RefreshOneAsWritten(x, next);
    assert RefreshAsWritten([x], next).0 == [a] && RefreshAsWritten([x], next).1 == n1;
    var (b, n2) := RefreshOneAsWritten(x, n1);
    assert RefreshAsWritten([x, x], next).0 == [a, b];
    BranchAsWrittenKeepsBranches(x.trueNode, next + 1);
    BranchAsWrittenKeepsBranches(x.trueNode, n1 + 1);
  }

  /** A branch that is a ConditionalNode is copied with its own branches untouched. */
  lemma BranchAsWrittenKeepsBranches(t: Base, next: nat)
    requires t.ConditionalNode?
    ensures RefreshBranchAsWritten(t, next).0 == WithId(t, next)
    ensures WithId(t, next).ConditionalNode? && WithId(t, next).trueNode == t.trueNode
  {
  }

  /** With the corrected relabelling the same two copies get different ids there. */
  lemma RefreshSeparatesCopies(x: Base, next: nat)
    requires x.ConditionalNode? && x.trueNode.ConditionalNode?
    ensures var r := Refresh([x, x], next).0;
      && r[0].ConditionalNode? && r[0].trueNode.ConditionalNode?
      && r[1].ConditionalNode? && r[1].trueNode.ConditionalNode?
      && r[0].trueNode.trueNode.id != r[1].trueNode.trueNode.id
  {
    assert [x, x][..1] == [x] && [x][..0] == [];
    var (i0, m0) := Refresh([x][..0], next);
    assert i0 == [] && m0 == next;
    var (a, n1) := RefreshOne(x, next);
    assert Refresh([x], next).0 == [a] && Refresh([x], next).1 == n1;
    var (b, n2) := RefreshOne(x, n1);
    assert Refresh([x, x], next).0 == [a, b];
    RefreshOneIds(x, next);
    RefreshOneIds(x, n1);
    assert Ids(a.trueNode.trueNode)[0] == a.trueNode.trueNode.id;
    assert Ids(b.trueNode.trueNode)[0] == b.trueNode.trueNode.id;
    assert a.trueNode.trueNode.id in Ids(a);
    assert b.trueNode.trueNode.id in Ids(b);
  }

  // ---------------------------------------------------------------------------
  // The loop
  // ---------------------------------------------------------------------------

  /** `_reset_id(nodes)`, drawing ids from `c`. */
  method ResetIds(nodes: seq<Base>, c: IdCounter) returns (r: seq<Base>)
    requires c.Valid()
    modifies c
    ensures c.Valid() && old(c.issued) <= c.issued && old(c.next) <= c.next
    ensures (r, c.next) == Refresh(nodes, old(c.next))
    decreases SizeSeq(nodes), 1
  {
    r := [];
    var i := 0;
    while i < |nodes|
      invariant 0 <= i <= |nodes|
      invariant c.Valid() && old(c.issued) <= c.issued
      invariant (r, c.next) == Refresh(nodes[..i], old(c.next))
    {
      SizeElem(nodes, i);
      var b := ResetOne(nodes[i], c);
      assert nodes[..i + 1][..i] == nodes[..i];
      r := r + [b];
      i := i + 1;
    }
    assert nodes[..|nodes|] == nodes;
  }

  /** The body of the `_reset_id` loop for one copied element. */
  method ResetOne(node: Base, c: IdCounter) returns (b: Base)
    requires c.Valid()
    modifies c
    ensures c.Valid() && old(c.issued) <= c.issued
    ensures b.id == old(c.next) < c.next
    ensures (b, c.next) == RefreshOne(node, old(c.next))
    decreases Size(node), 0
  {
    var id := c.Next();
    match node
    case Node(_, n, d, a, p, fn) =>
      b := Node(id, n, d, a, p, fn);
    case ConditionalNode(_, n, d, a, p, fn, t, f) =>
      var t' := ResetOne(t, c);
      var f' := ResetOne(f, c);
      b := ConditionalNode(id, n, d, a, p, fn, t', f');
    case Layer(_, n, d, ns) =>
      var ns' := ResetIds(ns, c);
      b := Layer(id, n, d, ns');
    case Chain(_, n, d, ns) =>
      var ns' := ResetIds(ns, c);
      b := Chain(id, n, d, ns');
  }
}
