/**
 * The `__call__` methods of Node, ConditionalNode, Layer and Chain. User
 * callables are an uninterpreted `Apply`; a callable that raises yields
 * `Raised`, which every `__call__` catches, logs and turns into `None`.
 */
module Execute {
  import opened Wrappers
  import opened Utils
  import opened Graph

  /** Call values: Python None, bool, int, str, list or tuple, and dict. */
  datatype Value =
    | VNone
    | VBool(b: bool)
    | VInt(i: int)
    | VStr(s: string)
    | VList(items: seq<Value>)
    | VDict(entries: map<string, Value>)

  /** What invoking a user callable does: return a value or raise. */
  datatype Outcome = Returned(value: Value) | Raised

  /** The user callables: callable, positional arguments, keyword arguments. */
  type Apply = (FuncId, seq<Value>, map<string, Value>) -> Outcome

  /** The value a `__call__` returns for an outcome: on an exception it logs and returns None. */
  function Caught(o: Outcome): Value
  {
    match o
    case Returned(v) => v
    case Raised => VNone
  }

  /**
   * How a Node invokes its callable: a variadic callable gets the arguments
   * unchanged, any other gets only the keyword mapping `_input_args` builds.
   */
  function Invoke(apply: Apply, func: FuncId, positionalOrKeyword: bool, params: seq<string>,
                  args: seq<Value>, kwargs: map<string, Value>): Outcome
  {
    if positionalOrKeyword then apply(func, args, kwargs)
    else apply(func, [], InputArgs(args, kwargs, params))
  }

  /** `b(*args, **kwargs)`. */
  function Call(b: Base, args: seq<Value>, kwargs: map<string, Value>, apply: Apply): (r: Value)
    ensures b.Layer? ==> r.VList? && |r.items| == |b.nodes|
    decreases Size(b), 0
  {
    match b
    case Node(_, _, _, ps, pk, fn) =>
      Caught(Invoke(apply, fn, pk, ps, args, kwargs))
    case ConditionalNode(_, _, _, ps, pk, fn, t, f) =>
      (match Invoke(apply, fn, pk, ps, args, kwargs)
       case Returned(VBool(true)) => Call(t, args, kwargs, apply)
       case Returned(VBool(false)) => Call(f, args, kwargs, apply)
       case _ => VNone)
    case Layer(_, _, _, ns) => VList(CallEach(ns, args, kwargs, apply))
    case Chain(_, _, _, ns) => Caught(ChainRun(ns, args, kwargs, apply))
  }

  /** The Layer's thread pool, as a sequential map in child order. */
  function CallEach(ns: seq<Base>, args: seq<Value>, kwargs: map<string, Value>, apply: Apply): (r: seq<Value>)
    ensures |r| == |ns|
    decreases SizeSeq(ns), 2
  {
    if ns == [] then []
    else CallEach(ns[..|ns| - 1], args, kwargs, apply) + [Call(ns[|ns| - 1], args, kwargs, apply)]
  }

  /** How a Chain passes a previous result on: a list spreads positionally, a dict by keyword. */
  function SpreadArgs(x: Value): seq<Value>
  {
    match x
    case VList(xs) => xs
    case VDict(_) => []
    case _ => [x]
  }

  function SpreadKwargs(x: Value): map<string, Value>
  {
    match x
    case VDict(m) => m
    case _ => map[]
  }

  /**
   * A dict result with the key "self" cannot be spread by keyword: every
   * `__call__` takes `self` as its first parameter, so `node(**x)` raises
   * TypeError before the child runs.
   */
  predicate BindsSelf(x: Value)
  {
    x.VDict? && "self" in x.entries
  }

  /** A later child of a Chain called with the previous result, in the Chain's own frame. */
  function Feed(b: Base, x: Value, apply: Apply): (r: Outcome)
    ensures r.Raised? <==> BindsSelf(x)
    decreases Size(b), 1
  {
    if BindsSelf(x) then Raised else Returned(Call(b, SpreadArgs(x), SpreadKwargs(x), apply))
  }

  /** One more step of the Chain loop: a raise skips the rest, a value is fed to `b`. */
  function Then(o: Outcome, b: Base, apply: Apply): (r: Outcome)
    ensures o.Raised? ==> r.Raised?
    decreases Size(b), 2
  {
    match o
    case Raised => Raised
    case Returned(x) => Feed(b, x, apply)
  }

  /**
   * The Chain loop over `ns` inside its `try`: the value of the last child, or
   * `Raised` when a step raised in the Chain's frame.
   */
  function ChainRun(ns: seq<Base>, args: seq<Value>, kwargs: map<string, Value>, apply: Apply): (r: Outcome)
    ensures |ns| <= 1 ==> r.Returned?
    decreases SizeSeq(ns), 3
  {
    if ns == [] then Returned(VNone)
    else if |ns| == 1 then Returned(Call(ns[0], args, kwargs, apply))
    else Then(ChainRun(ns[..|ns| - 1], args, kwargs, apply), ns[|ns| - 1], apply)
  }

  /** `Chain.__call__`: the loop that threads `x` through the children. */
  method CallChain(self: Base, args: seq<Value>, kwargs: map<string, Value>, apply: Apply) returns (x: Value)
    requires self.Chain?
    ensures x == Call(self, args, kwargs, apply)
  {
    var nodes := self.nodes;
    x := VNone;
    var i := 0;
    while i < |nodes|
      invariant 0 <= i <= |nodes|
      invariant ChainRun(nodes[..i], args, kwargs, apply) == Returned(x)
    {
      assert nodes[..i + 1][..i] == nodes[..i];
      if i == 0 {
        x := Call(nodes[i], args, kwargs, apply);
      } else {
        assert ChainRun(nodes[..i + 1], args, kwargs, apply) == Feed(nodes[i], x, apply);
        match x
        case VList(xs) => x := Call(nodes[i], xs, map[], apply);
        case VDict(m) =>
          if "self" in m {
            // `node(**x)` raises; the `except` logs it and the Chain returns None
            RaisedStays(nodes, i + 1, args, kwargs, apply);
            return VNone;
          }
          x := Call(nodes[i], [], m, apply);
        case _ => x := Call(nodes[i], [x], map[], apply);
      }
      i := i + 1;
    }
    assert nodes[..|nodes|] == nodes;
  }

  // ---------------------------------------------------------------------------
  // Properties
  // ---------------------------------------------------------------------------

  /**
   * A non-variadic Node calls its callable with exactly the `_input_args`
   * mapping; a variadic one with the arguments unchanged. An exception gives None.
   */
  lemma NodeCall(b: Base, args: seq<Value>, kwargs: map<string, Value>, apply: Apply)
    requires b.Node?
    ensures !b.positionalOrKeyword ==>
      Call(b, args, kwargs, apply) == Caught(apply(b.func, [], InputArgs(args, kwargs, b.args)))
    ensures b.positionalOrKeyword ==>
      Call(b, args, kwargs, apply) == Caught(apply(b.func, args, kwargs))
  {
  }

  /**
   * A ConditionalNode runs the branch its predicate selects with the original
   * arguments; a predicate that raises or returns a non-bool gives None.
   */
  lemma ConditionalCall(b: Base, args: seq<Value>, kwargs: map<string, Value>, apply: Apply)
    requires b.ConditionalNode?
    ensures var o := Invoke(apply, b.func, b.positionalOrKeyword, b.args, args, kwargs);
      && (o == Returned(VBool(true)) ==> Call(b, args, kwargs, apply) == Call(b.trueNode, args, kwargs, apply))
      && (o == Returned(VBool(false)) ==> Call(b, args, kwargs, apply) == Call(b.falseNode, args, kwargs, apply))
      && (!(o.Returned? && o.value.VBool?) ==> Call(b, args, kwargs, apply) == VNone)
  {
  }

  lemma {:induction false} CallEachAt(ns: seq<Base>, args: seq<Value>, kwargs: map<string, Value>, apply: Apply, i: nat)
    requires i < |ns|
    ensures CallEach(ns, args, kwargs, apply)[i] == Call(ns[i], args, kwargs, apply)
  {
    if i < |ns| - 1 {
      CallEachAt(ns[..|ns| - 1], args, kwargs, apply, i);
    }
  }

  /** A Layer returns one result per child, in child order, each child given the same arguments. */
  lemma LayerCall(b: Base, args: seq<Value>, kwargs: map<string, Value>, apply: Apply)
    requires b.Layer?
    ensures Call(b, args, kwargs, apply).VList?
    ensures |Call(b, args, kwargs, apply).items| == |b.nodes|
    ensures forall i :: 0 <= i < |b.nodes| ==>
      Call(b, args, kwargs, apply).items[i] == Call(b.nodes[i], args, kwargs, apply)
  {
    forall i | 0 <= i < |b.nodes|
      ensures Call(b, args, kwargs, apply).items[i] == Call(b.nodes[i], args, kwargs, apply)
    {
      CallEachAt(b.nodes, args, kwargs, apply, i);
    }
  }

  /**
   * In a Chain the first child gets the original arguments and each later one
   * the previous result, spread by its shape; the Chain returns the last
   * result, or None once a step raised.
   */
  lemma ChainSteps(ns: seq<Base>, args: seq<Value>, kwargs: map<string, Value>, apply: Apply, i: nat)
    requires 1 <= i < |ns|
    ensures ChainRun(ns[..1], args, kwargs, apply) == Returned(Call(ns[0], args, kwargs, apply))
    ensures ChainRun(ns[..i + 1], args, kwargs, apply)
      == Then(ChainRun(ns[..i], args, kwargs, apply), ns[i], apply)
    ensures Call(Chain(0, "Chain", None, ns), args, kwargs, apply) == Caught(ChainRun(ns, args, kwargs, apply))
  {
    assert ns[..i + 1][..i] == ns[..i];
  }

  /** Once a step raises, no later child runs and the loop's outcome stays `Raised`. */
  lemma {:induction false} RaisedStays(ns: seq<Base>, i: nat, args: seq<Value>, kwargs: map<string, Value>, apply: Apply)
    requires 1 <= i <= |ns| && ChainRun(ns[..i], args, kwargs, apply).Raised?
    ensures ChainRun(ns, args, kwargs, apply).Raised?
    decreases |ns|
  {
    if i < |ns| {
      var n := |ns| - 1;
      assert ns[..n][..i] == ns[..i];
      RaisedStays(ns[..n], i, args, kwargs, apply);
    } else {
      assert ns[..i] == ns;
    }
  }

  /**
   * `Chain([f, g])(x)` is `g(f(x))`, `g(*f(x))` or `g(**f(x))` by the shape of
   * `f(x)`, and None when `f(x)` is a dict with the key "self".
   */
  lemma ChainOfTwo(b: Base, args: seq<Value>, kwargs: map<string, Value>, apply: Apply)
    requires b.Chain? && |b.nodes| == 2
    ensures var x := Call(b.nodes[0], args, kwargs, apply);
      && (x.VList? ==> Call(b, args, kwargs, apply) == Call(b.nodes[1], x.items, map[], apply))
      && (x.VDict? && "self" !in x.entries ==> Call(b, args, kwargs, apply) == Call(b.nodes[1], [], x.entries, apply))
      && (x.VDict? && "self" in x.entries ==> Call(b, args, kwargs, apply) == VNone)
      && (!x.VList? && !x.VDict? ==> Call(b, args, kwargs, apply) == Call(b.nodes[1], [x], map[], apply))
  {
    assert b.nodes[..1] == [b.nodes[0]];
    var x := Call(b.nodes[0], args, kwargs, apply);
    assert ChainRun(b.nodes[..1], args, kwargs, apply) == Returned(x);
    assert ChainRun(b.nodes, args, kwargs, apply) == Feed(b.nodes[1], x, apply);
  }

  /** Execution never looks at ids: trees equal up to ids behave the same. */
  lemma {:induction false} CallIgnoresIds(a: Base, b: Base, args: seq<Value>, kwargs: map<string, Value>, apply: Apply)
    requires Erase(a) == Erase(b)
    ensures Call(a, args, kwargs, apply) == Call(b, args, kwargs, apply)
    decreases Size(a), 0
  {
    match a
    case Node(_, _, _, _, _, _) =>
    case ConditionalNode(_, _, _, _, _, _, t, f) =>
      CallIgnoresIds(t, b.trueNode, args, kwargs, apply);
      CallIgnoresIds(f, b.falseNode, args, kwargs, apply);
    case Layer(_, _, _, ns) =>
      CallEachIgnoresIds(ns, b.nodes, args, kwargs, apply);
    case Chain(_, _, _, ns) =>
      ChainRunIgnoresIds(ns, b.nodes, args, kwargs, apply);
  }

  lemma {:induction false} CallEachIgnoresIds(ns: seq<Base>, ms: seq<Base>, args: seq<Value>, kwargs: map<string, Value>, apply: Apply)
    requires EraseSeq(ns) == EraseSeq(ms)
    ensures CallEach(ns, args, kwargs, apply) == CallEach(ms, args, kwargs, apply)
    decreases SizeSeq(ns), 2
  {
    if ns != [] {
      var n := |ns| - 1;
      EraseSeqPrefix(ns, ms);
      CallEachIgnoresIds(ns[..n], ms[..n], args, kwargs, apply);
      CallIgnoresIds(ns[n], ms[n], args, kwargs, apply);
    }
  }

  lemma {:induction false} ChainRunIgnoresIds(ns: seq<Base>, ms: seq<Base>, args: seq<Value>, kwargs: map<string, Value>, apply: Apply)
    requires EraseSeq(ns) == EraseSeq(ms)
    ensures ChainRun(ns, args, kwargs, apply) == ChainRun(ms, args, kwargs, apply)
    decreases SizeSeq(ns), 3
  {
    if ns != [] {
      var n := |ns| - 1;
      EraseSeqPrefix(ns, ms);
      if |ns| == 1 {
        CallIgnoresIds(ns[0], ms[0], args, kwargs, apply);
      } else {
        ChainRunIgnoresIds(ns[..n], ms[..n], args, kwargs, apply);
        var o := ChainRun(ns[..n], args, kwargs, apply);
        assert ChainRun(ns, args, kwargs, apply) == Then(o, ns[n], apply);
        assert ChainRun(ms, args, kwargs, apply) == Then(o, ms[n], apply);
        if o.Returned? {
          CallIgnoresIds(ns[n], ms[n], SpreadArgs(o.value), SpreadKwargs(o.value), apply);
          assert Feed(ns[n], o.value, apply) == Feed(ms[n], o.value, apply);
        }
      }
    }
  }

  /** Splitting an erased-equal pair of lists at the last element. */
  lemma EraseSeqPrefix(ns: seq<Base>, ms: seq<Base>)
    requires EraseSeq(ns) == EraseSeq(ms) && ns != []
    ensures |ms| == |ns|
    ensures EraseSeq(ns[..|ns| - 1]) == EraseSeq(ms[..|ms| - 1])
    ensures Erase(ns[|ns| - 1]) == Erase(ms[|ms| - 1])
  {
    var n := |ns| - 1;
    assert EraseSeq(ns)[..n] == EraseSeq(ns[..n]);
    assert EraseSeq(ms)[..n] == EraseSeq(ms[..n]);
    assert EraseSeq(ns)[n] == Erase(ns[n]);
    assert EraseSeq(ms)[n] == Erase(ms[n]);
  }

  /** What the loop does with the children `b` after earlier children produced `o`. */
  function Continue(o: Outcome, b: seq<Base>, apply: Apply): Outcome
  {
    match o
    case Raised => Raised
    case Returned(x) =>
      if BindsSelf(x) then Raised else ChainRun(b, SpreadArgs(x), SpreadKwargs(x), apply)
  }

  /** The loop over `a + b` is the loop over `a` continued with `b`. */
  lemma {:induction false} ChainRunAppend(a: seq<Base>, b: seq<Base>, args: seq<Value>, kwargs: map<string, Value>, apply: Apply)
    requires |a| >= 1 && |b| >= 1
    ensures ChainRun(a + b, args, kwargs, apply) == Continue(ChainRun(a, args, kwargs, apply), b, apply)
    decreases |b|
  {
    var n := |b| - 1;
    var o := ChainRun(a, args, kwargs, apply);
    assert (a + b)[..|a + b| - 1] == a + b[..n];
    if |b| > 1 {
      ChainRunAppend(a, b[..n], args, kwargs, apply);
      assert ChainRun(a + b, args, kwargs, apply) == Then(Continue(o, b[..n], apply), b[n], apply);
      if o.Returned? && !BindsSelf(o.value) {
        assert ChainRun(b, SpreadArgs(o.value), SpreadKwargs(o.value), apply)
          == Then(ChainRun(b[..n], SpreadArgs(o.value), SpreadKwargs(o.value), apply), b[n], apply);
      }
    } else {
      assert a + b[..n] == a;
      assert ChainRun(a + b, args, kwargs, apply) == Then(o, b[0], apply);
      if o.Returned? && !BindsSelf(o.value) {
        assert ChainRun(b, SpreadArgs(o.value), SpreadKwargs(o.value), apply)
          == Returned(Call(b[0], SpreadArgs(o.value), SpreadKwargs(o.value), apply));
      }
    }
  }

  /**
   * Running the children `a + c.nodes` in one Chain returns what a Chain of
   * `a` followed by the Chain `c` returns: splicing a Chain's children into an
   * enclosing Chain equals nesting it there.
   */
  lemma ChainSplice(a: seq<Base>, c: Base, args: seq<Value>, kwargs: map<string, Value>, apply: Apply)
    requires |a| >= 1 && c.Chain? && |c.nodes| >= 1
    ensures Caught(ChainRun(a + c.nodes, args, kwargs, apply)) == Caught(ChainRun(a + [c], args, kwargs, apply))
  {
    ChainRunAppend(a, c.nodes, args, kwargs, apply);
    ChainRunAppend(a, [c], args, kwargs, apply);
    var o := ChainRun(a, args, kwargs, apply);
    if o.Returned? && !BindsSelf(o.value) {
      var x := o.value;
      assert ChainRun([c], SpreadArgs(x), SpreadKwargs(x), apply) == Returned(Call(c, SpreadArgs(x), SpreadKwargs(x), apply));
    }
  }
}
