/**
 * Building graphs in streamgraph/base.py: validating and converting operands,
 * the four constructors, `add_node`, the operator dunders and the `node`
 * decorator. Ids come from an `IdCounter` in place of uuid4.
 */
module Compose {
  import opened Wrappers
  import opened Utils
  import opened Graph
  import opened Identity
  import opened Execute

  // ---------------------------------------------------------------------------
  // Operands
  // ---------------------------------------------------------------------------

  datatype CollectionKind = ListKind | TupleKind | DictKind

  /**
   * What can stand to the side of `>>` or `<<`, or be handed to a constructor:
   * a graph value, a list, tuple or dict of operands (a dict by its values in
   * insertion order; its keys play no part), or any other, non-iterable object.
   */
  datatype Operand =
    | Single(b: Base)
    | Collection(kind: CollectionKind, items: seq<Operand>)
    | Foreign

  /** The non-collection operands inside `op`, left to right. */
  function Leaves(op: Operand): (r: seq<Operand>)
    ensures forall i :: 0 <= i < |r| ==> !r[i].Collection?
    decreases op, 1
  {
    match op
    case Collection(_, items) => LeavesSeq(items, op)
    case _ => [op]
  }

  function LeavesSeq(items: seq<Operand>, ghost parent: Operand): (r: seq<Operand>)
    requires forall i :: 0 <= i < |items| ==> items[i] < parent
    ensures forall i :: 0 <= i < |r| ==> !r[i].Collection?
    decreases parent, 0, |items|
  {
    if items == [] then []
    else Leaves(items[0]) + LeavesSeq(items[1..], parent)
  }

  /** The graph values of a list of operands that are all graph values. */
  function Bases(items: seq<Operand>): (r: seq<Base>)
    requires forall i :: 0 <= i < |items| ==> items[i].Single?
    ensures |r| == |items| && forall i :: 0 <= i < |items| ==> r[i] == items[i].b
  {
    seq(|items|, i requires 0 <= i < |items| => items[i].b)
  }

  function Singles(bs: seq<Base>): (r: seq<Operand>)
    ensures |r| == |bs| && forall i :: 0 <= i < |bs| ==> r[i] == Single(bs[i])
  {
    seq(|bs|, i requires 0 <= i < |bs| => Single(bs[i]))
  }

  // ---------------------------------------------------------------------------
  // _check_input_node
  // ---------------------------------------------------------------------------

  /** `_check_input_node`: TypeError on the first leaf that is not a graph value. */
  function CheckInputNode(op: Operand): (r: Result<()>)
    ensures r.Err? ==> r.error == TypeError
    decreases op, 1
  {
    match op
    case Single(_) => Ok(())
    case Foreign => Err(TypeError)
    case Collection(_, items) => CheckEach(items, op)
  }

  function CheckEach(items: seq<Operand>, ghost parent: Operand): (r: Result<()>)
    requires forall i :: 0 <= i < |items| ==> items[i] < parent
    ensures r.Err? ==> r.error == TypeError
    decreases parent, 0, |items|
  {
    if items == [] then Ok(())
    else if CheckInputNode(items[0]).Err? then Err(TypeError)
    else CheckEach(items[1..], parent)
  }

  /** The check accepts exactly the operands with no foreign leaf. */
  lemma {:induction false} CheckInputNodeLeaves(op: Operand)
    ensures CheckInputNode(op).Ok? <==> Foreign !in Leaves(op)
    decreases op, 1
  {
    match op
    case Single(_) =>
    case Foreign =>
    case Collection(_, items) => CheckEachLeaves(items, op);
  }

  lemma {:induction false} CheckEachLeaves(items: seq<Operand>, parent: Operand)
    requires forall i :: 0 <= i < |items| ==> items[i] < parent
    ensures CheckEach(items, parent).Ok? <==> Foreign !in LeavesSeq(items, parent)
    decreases parent, 0, |items|
  {
    if items != [] {
      CheckInputNodeLeaves(items[0]);
      CheckEachLeaves(items[1..], parent);
    }
  }

  /** An item of a collection that is not itself a collection is one of its leaves. */
  lemma {:induction false} ItemIsLeaf(items: seq<Operand>, parent: Operand, i: nat)
    requires forall j :: 0 <= j < |items| ==> items[j] < parent
    requires i < |items| && !items[i].Collection?
    ensures items[i] in LeavesSeq(items, parent)
    decreases |items|
  {
    if i > 0 {
      ItemIsLeaf(items[1..], parent, i - 1);
    }
  }

  /** A collection passes the check when each of its items does. */
  lemma {:induction false} CheckEachSingles(items: seq<Operand>, parent: Operand)
    requires forall j :: 0 <= j < |items| ==> items[j] < parent
    requires forall j :: 0 <= j < |items| ==> items[j].Single?
    ensures CheckEach(items, parent).Ok?
    decreases |items|
  {
    if items != [] {
      CheckEachSingles(items[1..], parent);
    }
  }

  // ---------------------------------------------------------------------------
  // _convert_parallel_node, as a reference
  // ---------------------------------------------------------------------------

  /** Every item is a graph value and none is a Layer. */
  predicate FlatNoLayer(items: seq<Operand>)
  {
    forall i :: 0 <= i < |items| ==> items[i].Single? && !items[i].b.Layer?
  }

  /**
   * What converting an operand succeeds with, ids aside: a graph value stays
   * itself, a flat list or tuple of non-Layer graph values becomes a Layer of
   * them, and an empty dict an empty Layer. Every other operand fails.
   */
  function Converted(op: Operand): (r: Option<Base>)
    ensures r.Some? && !op.Single? ==> r.value.Layer? && r.value.name == "Layer"
    ensures op.Collection? && (exists i :: 0 <= i < |op.items| && op.items[i].Collection?) ==> r.None?
  {
    match op
    case Single(b) => Some(b)
    case Foreign => None
    case Collection(kind, items) =>
      if kind == DictKind then
        (if items == [] then Some(Layer(0, "Layer", None, [])) else None)
      else if FlatNoLayer(items) then Some(Layer(0, "Layer", None, Bases(items)))
      else None
  }

  // ---------------------------------------------------------------------------
  // Ids
  // ---------------------------------------------------------------------------

  /** The ids are pairwise distinct and all drawn from `lo .. hi - 1`. */
  predicate FreshIn(ids: seq<nat>, lo: nat, hi: nat)
  {
    Distinct(ids) && forall k :: k in ids ==> lo <= k < hi
  }

  /** A new entity whose id was drawn after those of its freshly copied children. */
  lemma FreshParent(k: nat, ids: seq<nat>, lo: nat, hi: nat)
    requires FreshIn(ids, lo, k) && lo <= k < hi
    ensures FreshIn([k] + ids, lo, hi)
  {
    var s := [k] + ids;
    assert forall x :: x in s ==> x == k || x in ids;
    forall i, j | 0 <= i < j < |s|
      ensures s[i] != s[j]
    {
      if i == 0 {
        assert s[j] in ids;
      } else {
        assert s[i] == ids[i - 1] && s[j] == ids[j - 1];
      }
    }
  }

  /** Ids drawn in two consecutive batches. */
  lemma FreshConcat(a: seq<nat>, b: seq<nat>, lo: nat, mid: nat, hi: nat)
    requires FreshIn(a, lo, mid) && FreshIn(b, mid, hi) && lo <= mid <= hi
    ensures FreshIn(a + b, lo, hi)
  {
    var s := a + b;
    assert forall x :: x in s ==> x in a || x in b;
    forall i, j | 0 <= i < j < |s|
      ensures s[i] != s[j]
    {
      if j < |a| {
        assert s[i] == a[i] && s[j] == a[j];
      } else if i >= |a| {
        assert s[i] == b[i - |a|] && s[j] == b[j - |a|];
      } else {
        assert s[i] == a[i] && s[j] == b[j - |a|];
        assert a[i] in a && b[j - |a|] in b;
      }
    }
  }

  /** A refreshed copy is fresh. */
  lemma RefreshFreshIn(ns: seq<Base>, next: nat)
    ensures FreshIn(IdsSeq(Refresh(ns, next).0), next, Refresh(ns, next).1)
  {
    RefreshFresh(ns, next);
  }

  lemma RefreshOneFreshIn(b: Base, next: nat)
    ensures FreshIn(Ids(RefreshOne(b, next).0), next, RefreshOne(b, next).1)
  {
    RefreshOneIds(b, next);
    var r := Ids(RefreshOne(b, next).0);
    var m := RefreshOne(b, next).1;
    assert forall i :: 0 <= i < |r| ==> r[i] == next + i;
  }

  // ---------------------------------------------------------------------------
  // Erasure
  // ---------------------------------------------------------------------------

  lemma {:induction false} EraseSeqConcat(a: seq<Base>, b: seq<Base>)
    ensures EraseSeq(a + b) == EraseSeq(a) + EraseSeq(b)
    decreases |b|
  {
    if b == [] {
      assert a + b == a;
    } else {
      var n := |b| - 1;
      assert (a + b)[..|a + b| - 1] == a + b[..n];
      assert (a + b)[|a + b| - 1] == b[n];
      EraseSeqConcat(a, b[..n]);
    }
  }

  /** The containment rules do not depend on ids. */
  lemma {:induction false} ConstructibleIgnoresIds(a: Base, b: Base)
    requires Erase(a) == Erase(b)
    ensures Constructible(a) == Constructible(b)
    decreases Size(a), 0
  {
    match a
    case Node(_, _, _, _, _, _) =>
    case ConditionalNode(_, _, _, _, _, _, t, f) =>
      ConstructibleIgnoresIds(t, b.trueNode);
      ConstructibleIgnoresIds(f, b.falseNode);
    case Layer(_, _, _, ns) =>
      ConstructibleChildren(ns, b.nodes);
    case Chain(_, _, _, ns) =>
      ConstructibleChildren(ns, b.nodes);
  }

  lemma {:induction false} ConstructibleChildren(ns: seq<Base>, ms: seq<Base>)
    requires EraseSeq(ns) == EraseSeq(ms)
    ensures |ns| == |ms|
    ensures forall i :: 0 <= i < |ns| ==> ns[i].Layer? == ms[i].Layer?
    ensures forall i :: 0 <= i < |ns| ==> Constructible(ns[i]) == Constructible(ms[i])
    decreases SizeSeq(ns), 1
  {
    forall i | 0 <= i < |ns|
      ensures ns[i].Layer? == ms[i].Layer? && Constructible(ns[i]) == Constructible(ms[i])
    {
      EraseSeqAt(ns, i);
      EraseSeqAt(ms, i);
      EraseKeepsKindAndName(ns[i], ms[i]);
      SizeElem(ns, i);
      ConstructibleIgnoresIds(ns[i], ms[i]);
    }
  }

  lemma EraseSeqSingle(x: Base)
    ensures EraseSeq([x]) == [Erase(x)]
  {
    assert [x][..0] == [];
  }

  /** Whatever converting an operand yields has passed the check. */
  lemma ConvertedChecked(op: Operand)
    requires Converted(op).Some?
    ensures CheckInputNode(op).Ok?
  {
    if op.Collection? {
      if op.kind != DictKind {
        CheckEachSingles(op.items, op);
      }
    }
  }

  /** A foreign item makes the check of its collection fail. */
  lemma ForeignItemFails(op: Operand, i: nat)
    requires op.Collection? && i < |op.items| && op.items[i].Foreign?
    ensures CheckInputNode(op) == Err(TypeError)
  {
    ItemIsLeaf(op.items, op, i);
    CheckInputNodeLeaves(op);
  }

  // ---------------------------------------------------------------------------
  // Constructors
  // ---------------------------------------------------------------------------

  /** Some item is a Layer (the assertion of `Layer.__init__`). */
  predicate HasLayerItem(items: seq<Operand>)
  {
    exists i :: 0 <= i < |items| && items[i].Single? && items[i].b.Layer?
  }

  predicate AllSingle(items: seq<Operand>)
  {
    forall i :: 0 <= i < |items| ==> items[i].Single?
  }

  /** Every graph value among the leaves obeys the containment rules. */
  ghost predicate LeavesConstructible(op: Operand)
  {
    forall l :: l in Leaves(op) && l.Single? ==> Constructible(l.b)
  }

  /**
   * `Chain(nodes, name, description)`: fewer than two items is an
   * AssertionError, a foreign leaf a TypeError, and a nested collection an
   * AttributeError when `_reset_id` sets its id. Otherwise the Chain holds
   * fresh copies of the items and then draws its own id.
   */
  method NewChain(items: seq<Operand>, name: string, description: Option<string>, c: IdCounter)
    returns (r: Result<Base>)
    requires c.Valid()
    modifies c
    ensures c.Valid() && old(c.issued) <= c.issued && old(c.next) <= c.next
    ensures |items| <= 1 ==> r == Err(AssertionError)
    ensures |items| > 1 && CheckInputNode(Collection(ListKind, items)).Err? ==> r == Err(TypeError)
    ensures |items| > 1 && CheckInputNode(Collection(ListKind, items)).Ok? && r.Err? ==> r == Err(AttributeError)
    ensures r.Ok? <==> |items| > 1 && AllSingle(items)
    ensures r.Ok? ==> r.value.Chain? && r.value.name == name && r.value.description == description
    ensures r.Ok? ==> EraseSeq(r.value.nodes) == EraseSeq(Bases(items))
    ensures r.Ok? ==> FreshIn(Ids(r.value), old(c.next), c.next)
    ensures r.Ok? && (forall i :: 0 <= i < |items| && items[i].Single? ==> Constructible(items[i].b))
      ==> Constructible(r.value)
  {
    if AllSingle(items) {
      CheckEachSingles(items, Collection(ListKind, items));
    }
    if |items| <= 1 {
      return Err(AssertionError);
    }
    if CheckInputNode(Collection(ListKind, items)).Err? {
      return Err(TypeError);
    }
    if exists i :: 0 <= i < |items| && !items[i].Single? {
      return Err(AttributeError);
    }
    var bs := Bases(items);
    var ns, id := CopyChildren(bs, c);
    r := Ok(Chain(id, name, description, ns));
  }

  /**
   * What both collection constructors do once the checks pass: `_reset_id`
   * on the children, then one id for the new entity itself.
   */
  method CopyChildren(bs: seq<Base>, c: IdCounter) returns (ns: seq<Base>, id: nat)
    requires c.Valid()
    modifies c
    ensures c.Valid() && old(c.issued) <= c.issued && old(c.next) <= c.next
    ensures EraseSeq(ns) == EraseSeq(bs)
    ensures FreshIn([id] + IdsSeq(ns), old(c.next), c.next)
    ensures forall i :: 0 <= i < |bs| ==> ns[i].Layer? == bs[i].Layer? && Constructible(ns[i]) == Constructible(bs[i])
  {
    var lo := c.next;
    ns := ResetIds(bs, c);
    id := c.Next();
    RefreshIds(bs, lo);
    RefreshShape(bs, lo);
    RefreshFreshIn(bs, lo);
    FreshParent(id, IdsSeq(ns), lo, c.next);
    ConstructibleChildren(ns, bs);
  }

  /**
   * `Layer(nodes, name, description)` for a list, tuple or dict. Anything else
   * is not iterable: TypeError. A Layer item is an AssertionError, a foreign
   * leaf a TypeError; `_reset_id` then fails with AttributeError on a nested
   * collection, and on any dict key, so only an empty dict gets through (as an
   * empty list).
   */
  method NewLayer(nodes: Operand, name: string, description: Option<string>, c: IdCounter)
    returns (r: Result<Base>)
    requires c.Valid()
    modifies c
    ensures c.Valid() && old(c.issued) <= c.issued && old(c.next) <= c.next
    ensures !nodes.Collection? ==> r == Err(TypeError)
    ensures nodes.Collection? && nodes.kind != DictKind && HasLayerItem(nodes.items) ==> r == Err(AssertionError)
    ensures nodes.Collection? && !(nodes.kind != DictKind && HasLayerItem(nodes.items)) && CheckInputNode(nodes).Err?
      ==> r == Err(TypeError)
    ensures nodes.Collection? && !(nodes.kind != DictKind && HasLayerItem(nodes.items))
      ==> CheckInputNode(nodes).Ok? && r.Err? ==> r == Err(AttributeError)
    ensures r.Ok? <==> nodes.Collection? && if nodes.kind == DictKind then nodes.items == [] else FlatNoLayer(nodes.items)
    ensures r.Ok? ==> r.value.Layer? && r.value.name == name && r.value.description == description
    ensures r.Ok? ==> EraseSeq(r.value.nodes) == EraseSeq(if nodes.kind == DictKind then [] else Bases(nodes.items))
    ensures r.Ok? ==> FreshIn(Ids(r.value), old(c.next), c.next)
    ensures r.Ok? && (forall i :: 0 <= i < |nodes.items| && nodes.items[i].Single? ==> Constructible(nodes.items[i].b))
      ==> Constructible(r.value)
  {
    if !nodes.Collection? {
      return Err(TypeError);
    }
    var items := nodes.items;
    if AllSingle(items) {
      CheckEachSingles(items, nodes);
    }
    if nodes.kind != DictKind && exists i :: 0 <= i < |items| && items[i].Single? && items[i].b.Layer? {
      return Err(AssertionError);
    }
    if CheckInputNode(nodes).Err? {
      return Err(TypeError);
    }
    var bs: seq<Base>;
    if nodes.kind == DictKind {
      if items != [] {
        return Err(AttributeError);
      }
      bs := [];
    } else {
      if exists i :: 0 <= i < |items| && !items[i].Single? {
        return Err(AttributeError);
      }
      bs := Bases(items);
    }
    var ns, id := CopyChildren(bs, c);
    r := Ok(Layer(id, name, description, ns));
  }

  /**
   * Some item is a collection and every such item converts on its own: the
   * case where the outcome depends on what the outer conversion does next.
   */
  predicate NestedConvert(items: seq<Operand>)
  {
    && (exists i :: 0 <= i < |items| && items[i].Collection?)
    && (forall i :: 0 <= i < |items| && items[i].Collection? ==> Converted(items[i]).Some?)
  }

  /**
   * The error `Layer(inputs)` raises on a collection with nothing written back,
   * in the order `Layer.__init__` checks: a Layer item in a list or tuple, then
   * the input check, then `_reset_id` over a dict's keys. None when it succeeds.
   */
  function LayerFailure(op: Operand): Option<Error>
    requires op.Collection?
  {
    if op.kind != DictKind && HasLayerItem(op.items) then Some(AssertionError)
    else if CheckInputNode(op).Err? then Some(TypeError)
    else if op.kind == DictKind && op.items != [] then Some(AttributeError)
    else None
  }

  /**
   * The error of converting `op`, or None when conversion succeeds. Nested
   * collections are converted in order and the first failure propagates; a
   * tuple fails on writing back its first converted item; otherwise the outer
   * `Layer(inputs)` decides.
   */
  function ConvertFailure(op: Operand): Option<Error>
    decreases op, 1
  {
    match op
    case Single(_) => None
    case Foreign => Some(TypeError)
    case Collection(kind, items) =>
      var inner := NestedFailure(items, 0, kind == TupleKind, op);
      if inner.Some? then inner
      else if exists i :: 0 <= i < |items| && items[i].Collection? then
        Some(match kind
             case ListKind => AssertionError
             case TupleKind => TypeError
             case DictKind => if exists i :: 0 <= i < |items| && items[i].Foreign? then TypeError else AttributeError)
      else LayerFailure(op)
  }

  /**
   * The error of the first nested collection from index `i` on whose own
   * conversion fails; with `firstOnly` (a tuple) only the first nested
   * collection is converted.
   */
  function NestedFailure(items: seq<Operand>, i: nat, firstOnly: bool, ghost parent: Operand): Option<Error>
    requires forall k :: 0 <= k < |items| ==> items[k] < parent
    requires i <= |items|
    decreases parent, 0, |items| - i
  {
    if i == |items| then None
    else if items[i].Collection? then
      (var e := ConvertFailure(items[i]);
       if e.Some? || firstOnly then e else NestedFailure(items, i + 1, firstOnly, parent))
    else NestedFailure(items, i + 1, firstOnly, parent)
  }

  lemma {:induction false} NestedFailureFlat(items: seq<Operand>, i: nat, firstOnly: bool, parent: Operand)
    requires forall k :: 0 <= k < |items| ==> items[k] < parent
    requires i <= |items| && forall k :: 0 <= k < |items| ==> !items[k].Collection?
    ensures NestedFailure(items, i, firstOnly, parent).None?
    decreases |items| - i
  {
    if i < |items| {
      NestedFailureFlat(items, i + 1, firstOnly, parent);
    }
  }

  /** Conversion fails with some error exactly when `Converted` has no result. */
  lemma ConvertFailureIffConverted(op: Operand)
    ensures ConvertFailure(op).None? <==> Converted(op).Some?
  {
    if op.Collection? && forall k :: 0 <= k < |op.items| ==> !op.items[k].Collection? {
      var items := op.items;
      NestedFailureFlat(items, 0, op.kind == TupleKind, op);
      if exists j :: 0 <= j < |items| && items[j].Foreign? {
        var j :| 0 <= j < |items| && items[j].Foreign?;
        ForeignItemFails(op, j);
      }
      if AllSingle(items) {
        CheckEachSingles(items, op);
      }
    }
  }

  /** `x >> [layer]`: a list holding a Layer fails with AssertionError in the outer `Layer(inputs)`. */
  lemma AddLayerInListFails(self: Base, layer: Base, before: bool, r: Result<Base>)
    requires layer.Layer? && AddNodeResult(self, Collection(ListKind, [Single(layer)]), before, r)
    ensures r == Err(AssertionError)
  {
    var op := Collection(ListKind, [Single(layer)]);
    NestedFailureFlat(op.items, 0, false, op);
    assert HasLayerItem(op.items);
    CheckEachSingles(op.items, op);
  }

  /**
   * `_convert_parallel_node`: a graph value is returned as is; each nested
   * collection of a list or dict is converted (into a Layer) and written back,
   * and the whole becomes a Layer. Writing back into a tuple is a TypeError.
   */
  method ConvertParallelNode(op: Operand, c: IdCounter) returns (r: Result<Base>)
    requires c.Valid()
    modifies c
    ensures c.Valid() && old(c.issued) <= c.issued && old(c.next) <= c.next
    ensures op.Single? ==> r == Ok(op.b)
    ensures op.Foreign? ==> r == Err(TypeError)
    ensures r.Ok? <==> Converted(op).Some?
    ensures r.Ok? ==> Erase(r.value) == Erase(Converted(op).value)
    ensures r.Ok? && op.Collection? ==> r.value.Layer? && FreshIn(Ids(r.value), old(c.next), c.next)
    ensures r.Ok? && LeavesConstructible(op) ==> Constructible(r.value)
    ensures op.Collection? && op.kind != DictKind && AllSingle(op.items) && HasLayerItem(op.items)
      ==> r == Err(AssertionError)
    ensures op.Collection? && op.kind == DictKind && AllSingle(op.items) && op.items != []
      ==> r == Err(AttributeError)
    ensures op.Collection? && (forall i :: 0 <= i < |op.items| ==> !op.items[i].Collection?)
      && (exists i :: 0 <= i < |op.items| && op.items[i].Foreign?)
      && (op.kind == DictKind || !HasLayerItem(op.items))
      ==> r == Err(TypeError)
    ensures op.Collection? && NestedConvert(op.items) ==>
      match op.kind
      case ListKind => r == Err(AssertionError)
      case TupleKind => r == Err(TypeError)
      case DictKind => r == Err(if exists i :: 0 <= i < |op.items| && op.items[i].Foreign? then TypeError else AttributeError)
    ensures r.Err? ==> ConvertFailure(op) == Some(r.error)
    decreases op, 1
  {
    match op
    case Single(b) =>
      r := Ok(b);
    case Foreign =>
      r := Err(TypeError);
    case Collection(kind, items) =>
      var converted, failed := ConvertItems(kind, items, op, c);
      if failed.Some? {
        return Err(failed.value);
      }
      if exists j :: 0 <= j < |items| && items[j].Collection? {
        r := WrapNested(kind, items, converted, c);
      } else {
        assert converted == items;
        r := WrapFlat(op, c);
      }
  }

  /**
   * The loop of `_convert_parallel_node` over a collection's items: each nested
   * collection is converted and written back. It stops at the first error, or
   * at the first write into a tuple, which raises TypeError.
   */
  method ConvertItems(kind: CollectionKind, items: seq<Operand>, ghost op: Operand, c: IdCounter)
    returns (converted: seq<Operand>, failed: Option<Error>)
    requires c.Valid() && op == Collection(kind, items)
    modifies c
    ensures c.Valid() && old(c.issued) <= c.issued && old(c.next) <= c.next
    ensures failed.Some? ==> ConvertFailure(op) == failed
    ensures failed.Some? ==> exists j :: 0 <= j < |items| && items[j].Collection?
    ensures failed.Some? && kind != TupleKind ==>
      exists j :: 0 <= j < |items| && items[j].Collection? && Converted(items[j]).None?
    ensures failed.Some? && kind == TupleKind && NestedConvert(items) ==> failed == Some(TypeError)
    ensures failed.None? ==> NestedFailure(items, 0, kind == TupleKind, op).None?
    ensures failed.None? ==> |converted| == |items|
    ensures failed.None? ==> forall j :: 0 <= j < |items| && !items[j].Collection? ==> converted[j] == items[j]
    ensures failed.None? ==>
      forall j :: 0 <= j < |items| && items[j].Collection? ==> converted[j].Single? && converted[j].b.Layer?
    ensures failed.None? && kind == TupleKind ==> forall j :: 0 <= j < |items| ==> !items[j].Collection?
    decreases op, 0
  {
    converted := items;
    var i := 0;
    while i < |items|
      invariant 0 <= i <= |items|
      invariant |converted| == |items|
      invariant forall j :: 0 <= j < |items| && (i <= j || !items[j].Collection?) ==> converted[j] == items[j]
      invariant forall j :: 0 <= j < i && items[j].Collection? ==> converted[j].Single? && converted[j].b.Layer?
      invariant kind == TupleKind ==> forall j :: 0 <= j < i ==> !items[j].Collection?
      invariant NestedFailure(items, 0, kind == TupleKind, op) == NestedFailure(items, i, kind == TupleKind, op)
      invariant c.Valid() && old(c.issued) <= c.issued && old(c.next) <= c.next
    {
      if items[i].Collection? {
        var sub := ConvertParallelNode(items[i], c);
        ConvertFailureIffConverted(items[i]);
        if sub.Err? {
          return converted, Some(sub.error);
        }
        if kind == TupleKind {
          return converted, Some(TypeError);
        }
        converted := converted[i := Single(sub.value)];
      }
      i := i + 1;
    }
    failed := None;
  }

  /** The final `Layer(inputs)` of a conversion with nothing to write back. */
  method WrapFlat(op: Operand, c: IdCounter) returns (r: Result<Base>)
    requires c.Valid()
    requires op.Collection? && forall i :: 0 <= i < |op.items| ==> !op.items[i].Collection?
    modifies c
    ensures c.Valid() && old(c.issued) <= c.issued && old(c.next) <= c.next
    ensures r.Ok? <==> Converted(op).Some?
    ensures r.Ok? ==> Erase(r.value) == Erase(Converted(op).value)
    ensures r.Ok? ==> r.value.Layer? && FreshIn(Ids(r.value), old(c.next), c.next)
    ensures r.Ok? && LeavesConstructible(op) ==> Constructible(r.value)
    ensures op.kind != DictKind && AllSingle(op.items) && HasLayerItem(op.items) ==> r == Err(AssertionError)
    ensures op.kind == DictKind && AllSingle(op.items) && op.items != [] ==> r == Err(AttributeError)
    ensures (exists i :: 0 <= i < |op.items| && op.items[i].Foreign?) && (op.kind == DictKind || !HasLayerItem(op.items))
      ==> r == Err(TypeError)
    ensures r.Err? ==> LayerFailure(op) == Some(r.error)
  {
    var items := op.items;
    r := NewLayer(op, "Layer", None, c);
    if r.Ok? && LeavesConstructible(op) {
      forall j | 0 <= j < |items| && items[j].Single?
        ensures Constructible(items[j].b)
      {
        ItemIsLeaf(items, op, j);
      }
    }
    if exists j :: 0 <= j < |items| && items[j].Foreign? {
      var j :| 0 <= j < |items| && items[j].Foreign?;
      ForeignItemFails(op, j);
    }
    if AllSingle(items) {
      CheckEachSingles(items, op);
    }
  }

  /**
   * The final `Layer(inputs)` of a conversion that wrote inner Layers back
   * into a list or dict: a list now holds a Layer (AssertionError); a dict
   * fails its check on a foreign item, and otherwise in `_reset_id` on its keys.
   */
  method WrapNested(kind: CollectionKind, items: seq<Operand>, converted: seq<Operand>, c: IdCounter)
    returns (r: Result<Base>)
    requires c.Valid()
    requires |converted| == |items| && exists j :: 0 <= j < |items| && items[j].Collection?
    requires forall j :: 0 <= j < |items| && !items[j].Collection? ==> converted[j] == items[j]
    requires forall j :: 0 <= j < |items| && items[j].Collection? ==> converted[j].Single? && converted[j].b.Layer?
    modifies c
    ensures c.Valid() && old(c.issued) <= c.issued && old(c.next) <= c.next
    ensures r.Err?
    ensures kind == ListKind ==> r == Err(AssertionError)
    ensures kind == DictKind ==>
      r == Err(if exists i :: 0 <= i < |items| && items[i].Foreign? then TypeError else AttributeError)
  {
    var j :| 0 <= j < |items| && items[j].Collection?;
    assert converted[j].Single? && converted[j].b.Layer?;
    r := NewLayer(Collection(kind, converted), "Layer", None, c);
    if kind == DictKind {
      if exists k :: 0 <= k < |items| && items[k].Foreign? {
        var k :| 0 <= k < |items| && items[k].Foreign?;
        ForeignItemFails(Collection(kind, converted), k);
      } else {
        CheckEachSingles(converted, Collection(kind, converted));
      }
    }
  }

  /** The name a Node ends up with: the override if given, else the callable's `__name__`. */
  function ChosenName(f: Callable, name: Option<string>): string
  {
    if name.Some? then name.value else f.name
  }

  /** The description a Node ends up with: the override if given, else the docstring. */
  function ChosenDescription(f: Callable, description: Option<string>): Option<string>
  {
    if description.Some? then description else f.doc
  }

  /**
   * `Node(func, description, name)`: introspects the signature, applies the
   * overrides and draws one id.
   */
  method NewNode(f: Callable, description: Option<string>, name: Option<string>, c: IdCounter)
    returns (b: Base)
    requires c.Valid()
    modifies c
    ensures c.Valid() && old(c.issued) <= c.issued
    ensures b.Node? && b.func == f.func
    ensures b.id == old(c.next) && c.next == old(c.next) + 1 && b.id !in old(c.issued)
    ensures b.name == ChosenName(f, name) && b.description == ChosenDescription(f, description)
    ensures |b.args| == |f.signature|
    ensures forall i :: 0 <= i < |f.signature| ==> b.args[i] == MarkedName(f.signature[i])
    ensures b.positionalOrKeyword <==> exists i :: 0 <= i < |f.signature| && IsVariadic(f.signature[i])
  {
    var positionalOrKeyword := IsPositionalOrKeyword(f.signature);
    var nodeName := f.name;
    var doc := f.doc;
    var args := GetArgs(f.signature);
    if description.Some? {
      doc := description;
    }
    if name.Some? {
      nodeName := name.value;
    }
    var id := c.Next();
    b := Node(id, nodeName, doc, args, positionalOrKeyword, f.func);
  }

  /**
   * `ConditionalNode(func, true_node, false_node, description, name)`: the
   * Node part first, then a fresh copy of each branch. The copy relabels a
   * branch all the way down (see RefreshBranchAsWritten for the code as written).
   */
  method NewConditionalNode(f: Callable, trueNode: Base, falseNode: Base,
                            description: Option<string>, name: Option<string>, c: IdCounter)
    returns (b: Base)
    requires c.Valid()
    modifies c
    ensures c.Valid() && old(c.issued) <= c.issued && old(c.next) < c.next
    ensures b.ConditionalNode? && b.func == f.func && b.id == old(c.next)
    ensures b.name == ChosenName(f, name) && b.description == ChosenDescription(f, description)
    ensures |b.args| == |f.signature|
    ensures forall i :: 0 <= i < |f.signature| ==> b.args[i] == MarkedName(f.signature[i])
    ensures b.positionalOrKeyword <==> exists i :: 0 <= i < |f.signature| && IsVariadic(f.signature[i])
    ensures Erase(b.trueNode) == Erase(trueNode) && Erase(b.falseNode) == Erase(falseNode)
    ensures FreshIn(Ids(b), old(c.next), c.next)
    ensures Constructible(trueNode) && Constructible(falseNode) ==> Constructible(b)
  {
    var n := NewNode(f, description, name, c);
    var m0 := c.next;
    var t := ResetOne(trueNode, c);
    var m1 := c.next;
    var e := ResetOne(falseNode, c);
    b := ConditionalNode(n.id, n.name, n.description, n.args, n.positionalOrKeyword, n.func, t, e);
    RefreshOneIds(trueNode, m0);
    RefreshOneIds(falseNode, m1);
    RefreshOneShape(trueNode, m0);
    RefreshOneShape(falseNode, m1);
    RefreshOneFreshIn(trueNode, m0);
    RefreshOneFreshIn(falseNode, m1);
    FreshConcat([n.id], Ids(t), n.id, m0, m1);
    FreshConcat([n.id] + Ids(t), Ids(e), n.id, m1, c.next);
    ConstructibleIgnoresIds(t, trueNode);
    ConstructibleIgnoresIds(e, falseNode);
  }

  /**
   * The `node` decorator applied to a callable: a ConditionalNode exactly when
   * `conditional` is set and both branches are given, otherwise a plain Node.
   */
  method NodeDecorator(description: Option<string>, name: Option<string>, conditional: bool,
                       trueNode: Option<Base>, falseNode: Option<Base>, f: Callable, c: IdCounter)
    returns (b: Base)
    requires c.Valid()
    modifies c
    ensures c.Valid() && old(c.issued) <= c.issued
    ensures b.ConditionalNode? <==> conditional && trueNode.Some? && falseNode.Some?
    ensures !b.ConditionalNode? ==> b.Node?
    ensures b.func == f.func && b.name == ChosenName(f, name) && b.description == ChosenDescription(f, description)
    ensures b.ConditionalNode? ==> Erase(b.trueNode) == Erase(trueNode.value) && Erase(b.falseNode) == Erase(falseNode.value)
  {
    if conditional && trueNode.Some? && falseNode.Some? {
      b := NewConditionalNode(f, trueNode.value, falseNode.value, description, name, c);
    } else {
      b := NewNode(f, description, name, c);
    }
  }

  // ---------------------------------------------------------------------------
  // add_node and the operators
  // ---------------------------------------------------------------------------

  /**
   * The children of the Chain `add_node` builds: a Chain is spliced, `other`
   * going in front or at the back; anything else becomes one of two children.
   */
  function Spliced(self: Base, o: Base, before: bool): (r: seq<Base>)
    ensures |r| == if self.Chain? then |self.nodes| + 1 else 2
    ensures before ==> r[0] == o
    ensures !before ==> r[|r| - 1] == o
  {
    if self.Chain? then (if before then [o] + self.nodes else self.nodes + [o])
    else if before then [o, self] else [self, o]
  }

  lemma SplicedErase(self: Base, o1: Base, o2: Base, before: bool)
    requires Erase(o1) == Erase(o2)
    ensures EraseSeq(Spliced(self, o1, before)) == EraseSeq(Spliced(self, o2, before))
  {
    EraseSeqSingle(o1);
    EraseSeqSingle(o2);
    EraseSeqSingle(self);
    var a := if self.Chain? then self.nodes else [self];
    assert !self.Chain? ==> [o1, self] == [o1] + a && [o2, self] == [o2] + a;
    assert !self.Chain? ==> [self, o1] == a + [o1] && [self, o2] == a + [o2];
    EraseSeqConcat([o1], a);
    EraseSeqConcat([o2], a);
    EraseSeqConcat(a, [o1]);
    EraseSeqConcat(a, [o2]);
  }

  /**
   * What `self.add_node(other, before)` returns: TypeError from the check, the
   * conversion's error, an AssertionError for an empty Chain, and otherwise a
   * new default-named Chain whose children are, ids aside, `Spliced`.
   */
  ghost predicate AddNodeResult(self: Base, other: Operand, before: bool, r: Result<Base>)
  {
    && (CheckInputNode(other).Err? ==> r == Err(TypeError))
    && (Converted(other).Some? && self.Chain? && self.nodes == [] ==> r == Err(AssertionError))
    && (CheckInputNode(other).Ok? && Converted(other).None? ==> r.Err? && ConvertFailure(other) == Some(r.error))
    && (r.Ok? <==> Converted(other).Some? && (self.Chain? ==> self.nodes != []))
    && (r.Ok? ==>
          && r.value.Chain? && r.value.name == "Chain" && r.value.description == None
          && |r.value.nodes| == (if self.Chain? then |self.nodes| + 1 else 2)
          && EraseSeq(r.value.nodes) == EraseSeq(Spliced(self, Converted(other).value, before)))
  }

  /** The success half of AddNodeResult, from what the steps of `add_node` establish. */
  lemma AddNodeResultOk(self: Base, other: Operand, before: bool, o: Base, r: Base)
    requires Converted(other).Some? && Erase(o) == Erase(Converted(other).value)
    requires self.Chain? ==> self.nodes != []
    requires r.Chain? && r.name == "Chain" && r.description == None
    requires EraseSeq(r.nodes) == EraseSeq(Spliced(self, o, before))
    ensures AddNodeResult(self, other, before, Ok(r))
  {
    ConvertedChecked(other);
    SplicedErase(self, o, Converted(other).value, before);
  }

  /** The children `add_node` splices obey the containment rules when its operands do. */
  lemma SplicedConstructible(self: Base, o: Base, before: bool)
    requires Constructible(self) && Constructible(o)
    ensures forall i :: 0 <= i < |Spliced(self, o, before)| ==> Constructible(Spliced(self, o, before)[i])
  {
  }

  /** A Chain id drawn before its children are relabelled a second time. */
  lemma FreshRelabelled(k: nat, ns: seq<Base>, lo: nat, mid: nat)
    requires lo <= k < mid
    ensures FreshIn([k] + IdsSeq(Refresh(ns, mid).0), lo, Refresh(ns, mid).1)
  {
    RefreshFreshIn(ns, mid);
    RefreshIds(ns, mid);
    FreshConcat([k], IdsSeq(Refresh(ns, mid).0), lo, mid, Refresh(ns, mid).1);
  }

  /** `add_node` of Chain, Layer, Node and ConditionalNode. */
  method AddNode(self: Base, other: Operand, before: bool, c: IdCounter) returns (r: Result<Base>)
    requires c.Valid()
    modifies c
    ensures c.Valid() && old(c.issued) <= c.issued && old(c.next) <= c.next
    ensures AddNodeResult(self, other, before, r)
    ensures r.Ok? ==> FreshIn(Ids(r.value), old(c.next), c.next)
    ensures r.Ok? ==> forall k :: k in Ids(r.value) ==> k !in old(c.issued)
    ensures r.Ok? && Constructible(self) && LeavesConstructible(other) ==> Constructible(r.value)
  {
    if Converted(other).Some? {
      ConvertedChecked(other);
    }
    if CheckInputNode(other).Err? {
      return Err(TypeError);
    }
    var conv := ConvertParallelNode(other, c);
    if conv.Err? {
      return Err(conv.error);
    }
    var o := conv.value;
    var sp := SpliceInto(self, o, before, c);
    if sp.Err? {
      return Err(sp.error);
    }
    r := sp;
    AddNodeResultOk(self, other, before, o, r.value);
    assert forall k :: k in Ids(r.value) ==> old(c.next) <= k;
  }

  /** The Chain construction and the relabelling `add_node` does once `other` is converted to `o`. */
  method SpliceInto(self: Base, o: Base, before: bool, c: IdCounter) returns (r: Result<Base>)
    requires c.Valid()
    modifies c
    ensures c.Valid() && old(c.issued) <= c.issued && old(c.next) <= c.next
    ensures r.Ok? <==> (self.Chain? ==> self.nodes != [])
    ensures r.Err? ==> r.error == AssertionError
    ensures r.Ok? ==> r.value.Chain? && r.value.name == "Chain" && r.value.description == None
    ensures r.Ok? ==> EraseSeq(r.value.nodes) == EraseSeq(Spliced(self, o, before))
    ensures r.Ok? ==> FreshIn(Ids(r.value), old(c.next), c.next)
    ensures r.Ok? && Constructible(self) && Constructible(o) ==> Constructible(r.value)
  {
    var items := Spliced(self, o, before);
    if Constructible(self) && Constructible(o) {
      SplicedConstructible(self, o, before);
    }
    assert |items| == if self.Chain? then |self.nodes| + 1 else 2;
    assert AllSingle(Singles(items));
    var chain := NewChain(Singles(items), "Chain", None, c);
    assert Bases(Singles(items)) == items;
    if chain.Err? {
      return Err(chain.error);
    }
    var first := chain.value;
    assert first.id in Ids(first);
    var b := RelabelChain(first, old(c.next), c);
    r := Ok(b);
  }

  /** The second `_reset_id` of `add_node`: the new Chain's children are relabelled again. */
  method RelabelChain(chain: Base, ghost lo: nat, c: IdCounter) returns (b: Base)
    requires c.Valid() && chain.Chain? && lo <= chain.id < c.next
    modifies c
    ensures c.Valid() && old(c.issued) <= c.issued && old(c.next) <= c.next
    ensures b.Chain? && b.id == chain.id && b.name == chain.name && b.description == chain.description
    ensures EraseSeq(b.nodes) == EraseSeq(chain.nodes)
    ensures Constructible(b) == Constructible(chain)
    ensures FreshIn(Ids(b), lo, c.next)
  {
    var mid := c.next;
    var ns := ResetIds(chain.nodes, c);
    b := Chain(chain.id, chain.name, chain.description, ns);
    RefreshShape(chain.nodes, mid);
    RefreshIds(chain.nodes, mid);
    FreshRelabelled(chain.id, chain.nodes, lo, mid);
    ConstructibleIgnoresIds(b, chain);
  }

  /** `self >> other`: `other` goes after `self`. */
  method RShift(self: Base, other: Operand, c: IdCounter) returns (r: Result<Base>)
    requires c.Valid()
    modifies c
    ensures c.Valid() && old(c.issued) <= c.issued
    ensures AddNodeResult(self, other, false, r)
    ensures r.Ok? ==> FreshIn(Ids(r.value), old(c.next), c.next)
  {
    r := AddNode(self, other, false, c);
  }

  /** `other << self` reflected onto `self`: the code passes `before=False`, so `other` goes after `self`. */
  method RLShift(self: Base, other: Operand, c: IdCounter) returns (r: Result<Base>)
    requires c.Valid()
    modifies c
    ensures c.Valid() && old(c.issued) <= c.issued
    ensures AddNodeResult(self, other, false, r)
    ensures r.Ok? ==> FreshIn(Ids(r.value), old(c.next), c.next)
  {
    r := AddNode(self, other, false, c);
  }

  /** `self << other`: `other` goes before `self`. */
  method LShift(self: Base, other: Operand, c: IdCounter) returns (r: Result<Base>)
    requires c.Valid()
    modifies c
    ensures c.Valid() && old(c.issued) <= c.issued
    ensures AddNodeResult(self, other, true, r)
    ensures r.Ok? ==> FreshIn(Ids(r.value), old(c.next), c.next)
  {
    r := AddNode(self, other, true, c);
  }

  /** `other >> self` reflected onto `self` (a list on the left): `other` goes before `self`. */
  method RRShift(self: Base, other: Operand, c: IdCounter) returns (r: Result<Base>)
    requires c.Valid()
    modifies c
    ensures c.Valid() && old(c.issued) <= c.issued
    ensures AddNodeResult(self, other, true, r)
    ensures r.Ok? ==> FreshIn(Ids(r.value), old(c.next), c.next)
  {
    r := AddNode(self, other, true, c);
  }

  // ---------------------------------------------------------------------------
  // What composition means when the result runs
  // ---------------------------------------------------------------------------

  /**
   * The Chain `add_node` builds runs `self` and then `other` (or `other` and
   * then `self` when `before` is set), feeding the first result to the second.
   * Because a Chain `self` is spliced rather than nested, a step of `self` that
   * raises ends the whole Chain with None instead of feeding None to `other`.
   */
  lemma {:induction false} AddNodeRunsInOrder(self: Base, other: Operand, before: bool, r: Result<Base>,
                                              args: seq<Value>, kwargs: map<string, Value>, apply: Apply)
    requires AddNodeResult(self, other, before, r) && r.Ok?
    ensures var o := Converted(other).value;
      before ==> Call(r.value, args, kwargs, apply) == Caught(Feed(self, Call(o, args, kwargs, apply), apply))
    ensures var o := Converted(other).value;
      !before && (self.Chain? ==> ChainRun(self.nodes, args, kwargs, apply).Returned?) ==>
        Call(r.value, args, kwargs, apply) == Caught(Feed(o, Call(self, args, kwargs, apply), apply))
    ensures !before && self.Chain? && ChainRun(self.nodes, args, kwargs, apply).Raised? ==>
      Call(r.value, args, kwargs, apply) == VNone
  {
    var o := Converted(other).value;
    var sp := Spliced(self, o, before);
    ChainRunIgnoresIds(r.value.nodes, sp, args, kwargs, apply);
    if self.Chain? {
      if before {
        ChainRunAppend([o], self.nodes, args, kwargs, apply);
        assert [o] + self.nodes == sp;
        assert [o][..1] == [o];
      } else {
        assert sp[..|sp| - 1] == self.nodes;
      }
    } else {
      assert sp[..1] == [sp[0]];
    }
  }
}
