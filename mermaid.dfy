/**
 * `_create_mermaid` of streamgraph/base.py: lowering a list of graph values to
 * Mermaid flowchart statements while tracking the entry frontier (`first_node`)
 * and the exit frontier (`last_node`), and the text `Chain.view` assembles.
 */
module Mermaid {
  import opened Wrappers
  import opened Utils
  import opened Graph

  // ---------------------------------------------------------------------------
  // Statements and their text
  // ---------------------------------------------------------------------------

  datatype Shape = Rectangle | Diamond

  datatype Label = Plain | TrueLabel | FalseLabel

  /** One line of the diagram: a node declaration, an edge, or a subgraph bracket. */
  datatype Stmt =
    | Declare(id: nat, name: string, shape: Shape)
    | Edge(source: nat, target: nat, kind: Label)
    | SubgraphOpen
    | SubgraphEnd

  function Digit(d: nat): char
    requires d < 10
  {
    "0123456789"[d]
  }

  /** Decimal text of an id. */
  function NatToString(n: nat): (s: string)
    ensures |s| >= 1
  {
    if n < 10 then [Digit(n)] else NatToString(n / 10) + [Digit(n % 10)]
  }

  /** The line the code appends for a statement. */
  function Render(st: Stmt): string
  {
    match st
    case Declare(i, n, Rectangle) => NatToString(i) + "[" + n + "]:::rectangle;"
    case Declare(i, n, Diamond) => NatToString(i) + "{" + n + "}:::diamond;"
    case Edge(a, b, Plain) => NatToString(a) + " --> " + NatToString(b) + ";"
    case Edge(a, b, TrueLabel) => NatToString(a) + " -- True --> " + NatToString(b) + ";"
    case Edge(a, b, FalseLabel) => NatToString(a) + " -- False --> " + NatToString(b) + ";"
    case SubgraphOpen => "subgraph \" \";"
    case SubgraphEnd => "end;"
  }

  // ---------------------------------------------------------------------------
  // Pieces of a lowering step
  // ---------------------------------------------------------------------------

  /** The state of the lowering loop: `first_node`, `lines` and `last_node`. */
  datatype Lowering = Lowering(first: Option<seq<Base>>, lines: seq<Stmt>, last: Option<seq<Base>>)

  function EdgesFrom(x: Base, ys: seq<Base>, edgeLabel: Label): (r: seq<Stmt>)
    ensures |r| == |ys|
    ensures forall j :: 0 <= j < |ys| ==> r[j] == Edge(x.id, ys[j].id, edgeLabel)
  {
    seq(|ys|, j requires 0 <= j < |ys| => Edge(x.id, ys[j].id, edgeLabel))
  }

  /** `for x in xs: for y in ys: lines.append(edge x -> y)`. */
  function Cross(xs: seq<Base>, ys: seq<Base>, edgeLabel: Label): seq<Stmt>
  {
    if xs == [] then [] else Cross(xs[..|xs| - 1], ys, edgeLabel) + EdgesFrom(xs[|xs| - 1], ys, edgeLabel)
  }

  /** The edges from the previous exit frontier into a node, when there is one. */
  function Incoming(last: Option<seq<Base>>, u: Base): seq<Stmt>
  {
    if last.Some? then Cross(last.value, [u], Plain) else []
  }

  /** A Chain's lines go inside `subgraph " ";` ... `end;`. */
  function Bracket(isChain: bool, ls: seq<Stmt>): seq<Stmt>
  {
    if isChain then [SubgraphOpen] + ls + [SubgraphEnd] else ls
  }

  predicate AllFirst(ls: seq<Lowering>)
  {
    forall i :: 0 <= i < |ls| ==> ls[i].first.Some?
  }

  predicate AllLast(ls: seq<Lowering>)
  {
    forall i :: 0 <= i < |ls| ==> ls[i].last.Some?
  }

  /** `[y for x in list_layer for y in x[0]]`. */
  function Firsts(ls: seq<Lowering>): seq<Base>
    requires AllFirst(ls)
  {
    if ls == [] then [] else Firsts(ls[..|ls| - 1]) + ls[|ls| - 1].first.value
  }

  /** `[y for f in list_layer for y in f[2]]`. */
  function Lasts(ls: seq<Lowering>): seq<Base>
    requires AllLast(ls)
  {
    if ls == [] then [] else Lasts(ls[..|ls| - 1]) + ls[|ls| - 1].last.value
  }

  /** The lines of a Layer's children, each Chain child bracketed. */
  function BracketEach(cs: seq<Base>, ls: seq<Lowering>): seq<Stmt>
    requires |cs| == |ls|
  {
    if cs == [] then []
    else BracketEach(cs[..|cs| - 1], ls[..|ls| - 1]) + Bracket(cs[|cs| - 1].Chain?, ls[|ls| - 1].lines)
  }

  // ---------------------------------------------------------------------------
  // The lowering
  // ---------------------------------------------------------------------------

  /**
   * `_create_mermaid(ns)`. The code raises TypeError where it iterates or
   * concatenates a frontier that is None; that is the only error.
   */
  function Lower(ns: seq<Base>): (r: Result<Lowering>)
    ensures r.Err? ==> r.error == TypeError
    decreases SizeSeq(ns), 1
  {
    if ns == [] then Ok(Lowering(None, [], None))
    else
      match Lower(ns[..|ns| - 1])
      case Err(e) => Err(e)
      case Ok(st) => Step(st, ns[|ns| - 1])
  }

  /** The body of the loop of `_create_mermaid` for one element `u`. */
  function Step(st: Lowering, u: Base): (r: Result<Lowering>)
    ensures r.Err? ==> r.error == TypeError
    decreases Size(u), 0
  {
    match u
    case Node(_, _, _, _, _, _) =>
      Ok(Lowering(
        if st.first.None? then Some([u]) else st.first,
        st.lines + [Declare(u.id, u.name, Rectangle)] + Incoming(st.last, u),
        Some([u])))
    case ConditionalNode(_, _, _, _, _, _, t, f) =>
      (match Lower(Members(t))
       case Err(e) => Err(e)
       case Ok(lt) =>
         match Lower(Members(f))
         case Err(e) => Err(e)
         case Ok(lf) =>
           if lt.first.None? || lf.first.None? || lt.last.None? || lf.last.None? then Err(TypeError)
           else Ok(Lowering(
             if st.first.None? then Some([u]) else st.first,
             st.lines + [Declare(u.id, u.name, Diamond)]
               + Cross([u], lt.first.value, TrueLabel) + Cross([u], lf.first.value, FalseLabel)
               + Bracket(t.Chain?, lt.lines) + Bracket(f.Chain?, lf.lines)
               + Incoming(st.last, u),
             Some(lf.last.value + lt.last.value))))
    case Layer(_, _, _, cs) =>
      (match LowerEach(cs)
       case Err(e) => Err(e)
       case Ok(ls) =>
         if !AllLast(ls) then Err(TypeError)
         else if !AllFirst(ls) && (st.first.None? || (st.last.Some? && st.last.value != [])) then Err(TypeError)
         else
           var entries := if AllFirst(ls) then Firsts(ls) else [];
           Ok(Lowering(
             if st.first.None? then Some(entries) else st.first,
             st.lines + BracketEach(cs, ls) + (if st.last.Some? then Cross(st.last.value, entries, Plain) else []),
             Some(Lasts(ls)))))
    case Chain(_, _, _, cs) =>
      match Lower(cs)
      case Err(e) => Err(e)
      case Ok(lc) =>
        if st.last.Some? && st.last.value != [] && lc.first.None? then Err(TypeError)
        else
          var entries := if lc.first.Some? then lc.first.value else [];
          Ok(Lowering(
            if st.first.None? then lc.first else st.first,
            st.lines + Bracket(true, lc.lines) + (if st.last.Some? then Cross(st.last.value, entries, Plain) else []),
            lc.last))
  }

  /** `list_layer`: each child of a Layer lowered through its own `_nodes`, or as a one-element list. */
  function LowerEach(cs: seq<Base>): (r: Result<seq<Lowering>>)
    ensures r.Ok? ==> |r.value| == |cs|
    ensures r.Err? ==> r.error == TypeError
    decreases SizeSeq(cs), 2
  {
    if cs == [] then Ok([])
    else
      match LowerEach(cs[..|cs| - 1])
      case Err(e) => Err(e)
      case Ok(init) =>
        match Lower(Members(cs[|cs| - 1]))
        case Err(e) => Err(e)
        case Ok(l) => Ok(init + [l])
  }

  /** The Mermaid text of `Chain.view`: a header, the lines, then the style classes. */
  function ViewText(direction: string, nodes: seq<Base>): Result<string>
  {
    match Lower(nodes)
    case Err(e) => Err(e)
    case Ok(l) => Ok("flowchart " + direction + ";\n" + Join(RenderAll(l.lines)) + CssMermaid)
  }

  function RenderAll(ls: seq<Stmt>): (r: seq<string>)
    ensures |r| == |ls| && forall i :: 0 <= i < |ls| ==> r[i] == Render(ls[i])
  {
    seq(|ls|, i requires 0 <= i < |ls| => Render(ls[i]))
  }

  /** `"\n".join(xs)`. */
  function Join(xs: seq<string>): string
  {
    if xs == [] then ""
    else if |xs| == 1 then xs[0]
    else Join(xs[..|xs| - 1]) + "\n" + xs[|xs| - 1]
  }

  // ---------------------------------------------------------------------------
  // Edges between frontiers
  // ---------------------------------------------------------------------------

  lemma {:induction false} MulStep(i: nat, n: nat, m: nat)
    requires i < n
    ensures i * m + m <= n * m
    decreases n
  {
    if i + 1 < n {
      MulStep(i, n - 1, m);
      assert n * m == (n - 1) * m + m;
    } else {
      assert n * m == i * m + m;
    }
  }

  /** `Cross` emits one edge per pair: `|xs| * |ys|` edges. */
  lemma {:induction false} CrossSize(xs: seq<Base>, ys: seq<Base>, edgeLabel: Label)
    ensures |Cross(xs, ys, edgeLabel)| == |xs| * |ys|
  {
    if xs != [] {
      var n := |xs| - 1;
      CrossSize(xs[..n], ys, edgeLabel);
      assert |xs| * |ys| == n * |ys| + |ys|;
    }
  }

  /** The edge for the pair `(xs[i], ys[j])` sits at position `i * |ys| + j`. */
  lemma {:induction false} CrossAt(xs: seq<Base>, ys: seq<Base>, edgeLabel: Label, i: nat, j: nat)
    requires i < |xs| && j < |ys|
    ensures i * |ys| + j < |Cross(xs, ys, edgeLabel)|
    ensures Cross(xs, ys, edgeLabel)[i * |ys| + j] == Edge(xs[i].id, ys[j].id, edgeLabel)
  {
    var n := |xs| - 1;
    CrossSize(xs[..n], ys, edgeLabel);
    CrossSize(xs, ys, edgeLabel);
    MulStep(i, |xs|, |ys|);
    if i < n {
      CrossAt(xs[..n], ys, edgeLabel, i, j);
      MulStep(i, n, |ys|);
    }
  }

  lemma CrossOne(u: Base, ys: seq<Base>, edgeLabel: Label)
    ensures Cross([u], ys, edgeLabel) == EdgesFrom(u, ys, edgeLabel)
  {
    assert [u][..0] == [];
  }

  // ---------------------------------------------------------------------------
  // Base cases
  // ---------------------------------------------------------------------------

  /** An empty list lowers to no lines and no frontiers. */
  lemma LowerEmpty()
    ensures Lower([]) == Ok(Lowering(None, [], None))
  {
  }

  /** A single plain Node is one rectangle declaration, and both frontiers are that node. */
  lemma LowerOneNode(a: Base)
    requires a.Node?
    ensures Lower([a]) == Ok(Lowering(Some([a]), [Declare(a.id, a.name, Rectangle)], Some([a])))
    ensures Render(Declare(a.id, a.name, Rectangle)) == NatToString(a.id) + "[" + a.name + "]:::rectangle;"
  {
    assert [a][..0] == [];
    var d := Declare(a.id, a.name, Rectangle);
    assert [] + [d] + Incoming(None, a) == [d];
  }

  /** Two plain Nodes: both declarations, then exactly one edge between them. */
  lemma LowerTwoNodes(a: Base, b: Base)
    requires a.Node? && b.Node?
    ensures Lower([a, b]) == Ok(Lowering(Some([a]),
      [Declare(a.id, a.name, Rectangle), Declare(b.id, b.name, Rectangle), Edge(a.id, b.id, Plain)],
      Some([b])))
  {
    assert [a, b][..1] == [a];
    LowerOneNode(a);
    CrossOne(a, [b], Plain);
    var e := Edge(a.id, b.id, Plain);
    assert EdgesFrom(a, [b], Plain) == [e];
    var da := Declare(a.id, a.name, Rectangle);
    var db := Declare(b.id, b.name, Rectangle);
    assert [da] + [db] + [e] == [da, db, e];
  }

  // ---------------------------------------------------------------------------
  // Frontiers
  // ---------------------------------------------------------------------------

  /** Lowering a list fails when lowering some prefix of it fails. */
  lemma {:induction false} LowerPrefixOk(ns: seq<Base>, k: nat)
    requires k <= |ns| && Lower(ns).Ok?
    ensures Lower(ns[..k]).Ok?
  {
    if k < |ns| {
      assert ns[..|ns| - 1][..k] == ns[..k];
      LowerPrefixOk(ns[..|ns| - 1], k);
    } else {
      assert ns[..k] == ns;
    }
  }

  /** Once set, the entry frontier is never replaced. */
  lemma StepKeepsFirst(st: Lowering, u: Base)
    requires st.first.Some? && Step(st, u).Ok?
    ensures Step(st, u).value.first == st.first
  {
  }

  /** The entry frontier is the one the first element sets, when it sets one. */
  lemma {:induction false} FirstFixed(ns: seq<Base>)
    requires ns != [] && Lower(ns).Ok?
    ensures Lower([ns[0]]).Ok?
    ensures Lower([ns[0]]).value.first.Some? ==> Lower(ns).value.first == Lower([ns[0]]).value.first
  {
    LowerPrefixOk(ns, 1);
    assert ns[..1] == [ns[0]];
    if |ns| > 1 {
      var p := ns[..|ns| - 1];
      LowerPrefixOk(ns, |ns| - 1);
      assert p[0] == ns[0];
      FirstFixed(p);
      if Lower([ns[0]]).value.first.Some? {
        StepKeepsFirst(Lower(p).value, ns[|ns| - 1]);
      }
    }
  }

  /** The exit frontier after a step depends only on the element, not on the state before it. */
  lemma LastIgnoresState(st1: Lowering, st2: Lowering, u: Base)
    requires Step(st1, u).Ok? && Step(st2, u).Ok?
    ensures Step(st1, u).value.last == Step(st2, u).value.last
  {
  }

  /** So a list's exit frontier is the one its last element produces. */
  lemma LastFromLastElement(ns: seq<Base>, st: Lowering)
    requires ns != [] && Lower(ns).Ok? && Step(st, ns[|ns| - 1]).Ok?
    ensures Lower(ns).value.last == Step(st, ns[|ns| - 1]).value.last
  {
    LastIgnoresState(Lower(ns[..|ns| - 1]).value, st, ns[|ns| - 1]);
  }

  /** A Node's step: its declaration, then one edge from each node of the exit frontier. */
  lemma NodeStep(st: Lowering, u: Base)
    requires u.Node?
    ensures Step(st, u).Ok? && Step(st, u).value.last == Some([u])
    ensures var out := Step(st, u).value.lines;
      && |out| == |st.lines| + 1 + (if st.last.Some? then |st.last.value| else 0)
      && out[..|st.lines|] == st.lines && out[|st.lines|] == Declare(u.id, u.name, Rectangle)
      && (st.last.Some? ==> forall i :: 0 <= i < |st.last.value| ==>
            out[|st.lines| + 1 + i] == Edge(st.last.value[i].id, u.id, Plain))
  {
    var out := Step(st, u).value.lines;
    var k := |st.lines|;
    assert out == st.lines + [Declare(u.id, u.name, Rectangle)] + Incoming(st.last, u);
    if st.last.Some? {
      var xs := st.last.value;
      CrossSize(xs, [u], Plain);
      forall i | 0 <= i < |xs|
        ensures out[k + 1 + i] == Edge(xs[i].id, u.id, Plain)
      {
        CrossAt(xs, [u], Plain, i, 0);
      }
    }
  }

  /** `out[k..]` starts with one edge labelled `edgeLabel` from `u` to each of `ys`, in order. */
  predicate EdgesAt(out: seq<Stmt>, k: nat, u: Base, ys: seq<Base>, edgeLabel: Label)
  {
    k + |ys| <= |out| && forall i :: 0 <= i < |ys| ==> out[k + i] == Edge(u.id, ys[i].id, edgeLabel)
  }

  /** The result of a ConditionalNode's step, given how its two branches lower. */
  lemma ConditionalUnfold(st: Lowering, u: Base, lt: Lowering, lf: Lowering)
    requires u.ConditionalNode? && Lower(Members(u.trueNode)) == Ok(lt) && Lower(Members(u.falseNode)) == Ok(lf)
    requires lt.first.Some? && lf.first.Some? && lt.last.Some? && lf.last.Some?
    ensures Step(st, u).Ok?
    ensures Step(st, u).value.last == Some(lf.last.value + lt.last.value)
    ensures Step(st, u).value.lines ==
      st.lines + [Declare(u.id, u.name, Diamond)]
        + EdgesFrom(u, lt.first.value, TrueLabel) + EdgesFrom(u, lf.first.value, FalseLabel)
        + (Bracket(u.trueNode.Chain?, lt.lines) + Bracket(u.falseNode.Chain?, lf.lines) + Incoming(st.last, u))
  {
    CrossOne(u, lt.first.value, TrueLabel);
    CrossOne(u, lf.first.value, FalseLabel);
  }

  /**
   * A ConditionalNode's step: both branches lower with both frontiers set, and
   * the new exit frontier is the false branch's followed by the true branch's.
   */
  lemma ConditionalFrontier(st: Lowering, u: Base)
    requires u.ConditionalNode? && Step(st, u).Ok?
    ensures Lower(Members(u.trueNode)).Ok? && Lower(Members(u.falseNode)).Ok?
    ensures var lt := Lower(Members(u.trueNode)).value;
      var lf := Lower(Members(u.falseNode)).value;
      && lt.first.Some? && lf.first.Some? && lt.last.Some? && lf.last.Some?
      && Step(st, u).value.last == Some(lf.last.value + lt.last.value)
  {
  }

  /**
   * The lines of a ConditionalNode's step: its diamond, then one True edge
   * per entry of the true branch, then one False edge per entry of the false branch.
   */
  lemma ConditionalEdges(st: Lowering, u: Base)
    requires u.ConditionalNode? && Step(st, u).Ok?
    ensures Lower(Members(u.trueNode)).Ok? && Lower(Members(u.falseNode)).Ok?
    ensures var lt := Lower(Members(u.trueNode)).value;
      var lf := Lower(Members(u.falseNode)).value;
      var out := Step(st, u).value.lines;
      && lt.first.Some? && lf.first.Some?
      && |st.lines| < |out| && out[..|st.lines|] == st.lines && out[|st.lines|] == Declare(u.id, u.name, Diamond)
      && EdgesAt(out, |st.lines| + 1, u, lt.first.value, TrueLabel)
      && EdgesAt(out, |st.lines| + 1 + |lt.first.value|, u, lf.first.value, FalseLabel)
  {
    ConditionalFrontier(st, u);
    var lt := Lower(Members(u.trueNode)).value;
    var lf := Lower(Members(u.falseNode)).value;
    var d := Declare(u.id, u.name, Diamond);
    var te := EdgesFrom(u, lt.first.value, TrueLabel);
    var fe := EdgesFrom(u, lf.first.value, FalseLabel);
    var rest := Bracket(u.trueNode.Chain?, lt.lines) + Bracket(u.falseNode.Chain?, lf.lines) + Incoming(st.last, u);
    assert Step(st, u).value.lines == st.lines + [d] + te + fe + rest by {
      ConditionalUnfold(st, u, lt, lf);
    }
    LayoutEdges(st.lines, d, rest, u, lt.first.value, lf.first.value);
  }

  lemma LayoutEdges(a: seq<Stmt>, d: Stmt, rest: seq<Stmt>, u: Base, ys: seq<Base>, zs: seq<Base>)
    ensures var out := a + [d] + EdgesFrom(u, ys, TrueLabel) + EdgesFrom(u, zs, FalseLabel) + rest;
      && |a| < |out| && out[..|a|] == a && out[|a|] == d
      && EdgesAt(out, |a| + 1, u, ys, TrueLabel)
      && EdgesAt(out, |a| + 1 + |ys|, u, zs, FalseLabel)
  {
    Layout(a, d, EdgesFrom(u, ys, TrueLabel), EdgesFrom(u, zs, FalseLabel), rest);
  }

  /** Where the parts of `a + [d] + t + f + rest` sit. */
  lemma Layout(a: seq<Stmt>, d: Stmt, t: seq<Stmt>, f: seq<Stmt>, rest: seq<Stmt>)
    ensures var out := a + [d] + t + f + rest;
      && |out| == |a| + 1 + |t| + |f| + |rest|
      && out[..|a|] == a && out[|a|] == d
      && (forall i :: 0 <= i < |t| ==> out[|a| + 1 + i] == t[i])
      && (forall i :: 0 <= i < |f| ==> out[|a| + 1 + |t| + i] == f[i])
  {
  }

  /**
   * A Layer's step after a predecessor: its children's lines, then an edge
   * from each node of the exit frontier to each entry of each child:
   * `|last| * |entries|` edges.
   */
  lemma LayerStep(st: Lowering, u: Base)
    requires u.Layer? && Step(st, u).Ok? && st.last.Some?
    ensures LowerEach(u.nodes).Ok? && AllLast(LowerEach(u.nodes).value)
    ensures var ls := LowerEach(u.nodes).value;
      && (st.last.value != [] ==> AllFirst(ls))
      && Step(st, u).value.last == Some(Lasts(ls))
      && var entries := if AllFirst(ls) then Firsts(ls) else [];
         && Step(st, u).value.lines == st.lines + BracketEach(u.nodes, ls) + Cross(st.last.value, entries, Plain)
         && |Cross(st.last.value, entries, Plain)| == |st.last.value| * |entries|
  {
    var ls := LowerEach(u.nodes).value;
    var entries := if AllFirst(ls) then Firsts(ls) else [];
    CrossSize(st.last.value, entries, Plain);
  }

  // ---------------------------------------------------------------------------
  // Brackets balance
  // ---------------------------------------------------------------------------

  function Delta(s: Stmt): int
  {
    match s
    case SubgraphOpen => 1
    case SubgraphEnd => -1
    case _ => 0
  }

  /** Open brackets minus closed ones. */
  function Height(s: seq<Stmt>): int
  {
    if s == [] then 0 else Height(s[..|s| - 1]) + Delta(s[|s| - 1])
  }

  /** Every `end;` closes an earlier `subgraph " ";` and none is left open. */
  predicate Balanced(s: seq<Stmt>)
  {
    Height(s) == 0 && forall k :: 0 <= k <= |s| ==> Height(s[..k]) >= 0
  }

  lemma {:induction false} HeightConcat(a: seq<Stmt>, b: seq<Stmt>)
    ensures Height(a + b) == Height(a) + Height(b)
    decreases |b|
  {
    if b == [] {
      assert a + b == a;
    } else {
      var n := |b| - 1;
      assert (a + b)[..|a + b| - 1] == a + b[..n];
      assert (a + b)[|a + b| - 1] == b[n];
      HeightConcat(a, b[..n]);
    }
  }

  lemma BalancedConcat(a: seq<Stmt>, b: seq<Stmt>)
    requires Balanced(a) && Balanced(b)
    ensures Balanced(a + b)
  {
    HeightConcat(a, b);
    forall k | 0 <= k <= |a + b|
      ensures Height((a + b)[..k]) >= 0
    {
      if k <= |a| {
        assert (a + b)[..k] == a[..k];
      } else {
        assert (a + b)[..k] == a + b[..k - |a|];
        HeightConcat(a, b[..k - |a|]);
      }
    }
  }

  lemma BalancedBracket(isChain: bool, a: seq<Stmt>)
    requires Balanced(a)
    ensures Balanced(Bracket(isChain, a))
  {
    if isChain {
      var s := [SubgraphOpen] + a + [SubgraphEnd];
      HeightConcat([SubgraphOpen], a);
      HeightConcat([SubgraphOpen] + a, [SubgraphEnd]);
      assert [SubgraphOpen][..0] == [] && [SubgraphEnd][..0] == [];
      forall k | 0 <= k <= |s|
        ensures Height(s[..k]) >= 0
      {
        if 0 < k <= |a| + 1 {
          assert s[..k] == [SubgraphOpen] + a[..k - 1];
          HeightConcat([SubgraphOpen], a[..k - 1]);
        } else if k == |s| {
          assert s[..k] == s;
        }
      }
    }
  }

  /** Declarations and edges only. */
  predicate NoBrackets(s: seq<Stmt>)
  {
    forall i :: 0 <= i < |s| ==> s[i].Declare? || s[i].Edge?
  }

  lemma {:induction false} NoBracketsHeight(s: seq<Stmt>)
    requires NoBrackets(s)
    ensures Height(s) == 0
  {
    if s != [] {
      NoBracketsHeight(s[..|s| - 1]);
    }
  }

  lemma NoBracketsBalanced(s: seq<Stmt>)
    requires NoBrackets(s)
    ensures Balanced(s)
  {
    NoBracketsHeight(s);
    forall k | 0 <= k <= |s|
      ensures Height(s[..k]) >= 0
    {
      NoBracketsHeight(s[..k]);
    }
  }

  lemma {:induction false} CrossNoBrackets(xs: seq<Base>, ys: seq<Base>, edgeLabel: Label)
    ensures NoBrackets(Cross(xs, ys, edgeLabel))
  {
    if xs != [] {
      CrossNoBrackets(xs[..|xs| - 1], ys, edgeLabel);
    }
  }

  lemma CrossBalanced(xs: seq<Base>, ys: seq<Base>, edgeLabel: Label)
    ensures Balanced(Cross(xs, ys, edgeLabel))
  {
    CrossNoBrackets(xs, ys, edgeLabel);
    NoBracketsBalanced(Cross(xs, ys, edgeLabel));
  }

  lemma {:induction false} BracketEachBalanced(cs: seq<Base>, ls: seq<Lowering>)
    requires |cs| == |ls| && forall i :: 0 <= i < |ls| ==> Balanced(ls[i].lines)
    ensures Balanced(BracketEach(cs, ls))
  {
    if cs != [] {
      var n := |cs| - 1;
      BracketEachBalanced(cs[..n], ls[..n]);
      BalancedBracket(cs[n].Chain?, ls[n].lines);
      BalancedConcat(BracketEach(cs[..n], ls[..n]), Bracket(cs[n].Chain?, ls[n].lines));
    }
  }

  /** Every `subgraph " ";` the lowering emits is matched by a later `end;`. */
  lemma {:induction false} LowerBalanced(ns: seq<Base>)
    requires Lower(ns).Ok?
    ensures Balanced(Lower(ns).value.lines)
    decreases SizeSeq(ns), 1
  {
    if ns == [] {
      NoBracketsBalanced([]);
    } else {
      LowerBalanced(ns[..|ns| - 1]);
      StepBalanced(Lower(ns[..|ns| - 1]).value, ns[|ns| - 1]);
    }
  }

  lemma {:induction false} StepBalanced(st: Lowering, u: Base)
    requires Balanced(st.lines) && Step(st, u).Ok?
    ensures Balanced(Step(st, u).value.lines)
    decreases Size(u), 0
  {
    var d := [Declare(u.id, u.name, if u.Node? then Rectangle else Diamond)];
    NoBracketsBalanced(d);
    match u
    case Node(_, _, _, _, _, _) =>
      BalancedConcat(st.lines, d);
      if st.last.Some? {
        CrossBalanced(st.last.value, [u], Plain);
      } else {
        NoBracketsBalanced([]);
      }
      BalancedConcat(st.lines + d, Incoming(st.last, u));
    case ConditionalNode(_, _, _, _, _, _, t, f) =>
      var lt := Lower(Members(t)).value;
      var lf := Lower(Members(f)).value;
      LowerBalanced(Members(t));
      LowerBalanced(Members(f));
      CrossBalanced([u], lt.first.value, TrueLabel);
      CrossBalanced([u], lf.first.value, FalseLabel);
      BalancedBracket(t.Chain?, lt.lines);
      BalancedBracket(f.Chain?, lf.lines);
      if st.last.Some? {
        CrossBalanced(st.last.value, [u], Plain);
      } else {
        NoBracketsBalanced([]);
      }
      var a := st.lines + d;
      BalancedConcat(st.lines, d);
      BalancedConcat(a, Cross([u], lt.first.value, TrueLabel));
      var b := a + Cross([u], lt.first.value, TrueLabel);
      BalancedConcat(b, Cross([u], lf.first.value, FalseLabel));
      var c := b + Cross([u], lf.first.value, FalseLabel);
      BalancedConcat(c, Bracket(t.Chain?, lt.lines));
      var e := c + Bracket(t.Chain?, lt.lines);
      BalancedConcat(e, Bracket(f.Chain?, lf.lines));
      var g := e + Bracket(f.Chain?, lf.lines);
      BalancedConcat(g, Incoming(st.last, u));
    case Layer(_, _, _, cs) =>
      var ls := LowerEach(cs).value;
      LowerEachBalanced(cs);
      BracketEachBalanced(cs, ls);
      BalancedConcat(st.lines, BracketEach(cs, ls));
      var entries := if AllFirst(ls) then Firsts(ls) else [];
      if st.last.Some? {
        CrossBalanced(st.last.value, entries, Plain);
        BalancedConcat(st.lines + BracketEach(cs, ls), Cross(st.last.value, entries, Plain));
      } else {
        assert st.lines + BracketEach(cs, ls) + [] == st.lines + BracketEach(cs, ls);
      }
    case Chain(_, _, _, cs) =>
      var lc := Lower(cs).value;
      LowerBalanced(cs);
      BalancedBracket(true, lc.lines);
      BalancedConcat(st.lines, Bracket(true, lc.lines));
      var entries := if lc.first.Some? then lc.first.value else [];
      if st.last.Some? {
        CrossBalanced(st.last.value, entries, Plain);
        BalancedConcat(st.lines + Bracket(true, lc.lines), Cross(st.last.value, entries, Plain));
      } else {
        assert st.lines + Bracket(true, lc.lines) + [] == st.lines + Bracket(true, lc.lines);
      }
  }

  lemma {:induction false} LowerEachBalanced(cs: seq<Base>)
    requires LowerEach(cs).Ok?
    ensures forall i :: 0 <= i < |cs| ==> Balanced(LowerEach(cs).value[i].lines)
    decreases SizeSeq(cs), 2
  {
    if cs != [] {
      var n := |cs| - 1;
      LowerEachBalanced(cs[..n]);
      LowerBalanced(Members(cs[n]));
    }
  }

  // ---------------------------------------------------------------------------
  // Graphs that lower without error
  // ---------------------------------------------------------------------------

  /** Every ConditionalNode branch has something to lower: a Layer or Chain branch is not empty. */
  predicate BranchesNonEmpty(b: Base)
    decreases Size(b)
  {
    match b
    case Node(_, _, _, _, _, _) => true
    case ConditionalNode(_, _, _, _, _, _, t, f) =>
      Members(t) != [] && Members(f) != [] && BranchesNonEmpty(t) && BranchesNonEmpty(f)
    case Layer(_, _, _, ns) => forall i :: 0 <= i < |ns| ==> (SizeElem(ns, i); BranchesNonEmpty(ns[i]))
    case Chain(_, _, _, ns) => forall i :: 0 <= i < |ns| ==> (SizeElem(ns, i); BranchesNonEmpty(ns[i]))
  }

  /** A graph construction allows whose conditional branches are not empty. */
  predicate Drawable(b: Base)
  {
    Constructible(b) && BranchesNonEmpty(b)
  }

  lemma MembersDrawable(b: Base)
    requires Drawable(b)
    ensures forall i :: 0 <= i < |Members(b)| ==> Drawable(Members(b)[i])
    ensures !b.Layer? ==> Members(b) != []
  {
  }

  /** A list of drawable graph values lowers without error, and a non-empty one sets both frontiers. */
  lemma {:induction false} LowerTotal(ns: seq<Base>)
    requires forall i :: 0 <= i < |ns| ==> Drawable(ns[i])
    ensures Lower(ns).Ok?
    ensures ns != [] ==> Lower(ns).value.first.Some? && Lower(ns).value.last.Some?
    decreases SizeSeq(ns), 1
  {
    if ns != [] {
      var n := |ns| - 1;
      LowerTotal(ns[..n]);
      StepTotal(Lower(ns[..n]).value, ns[n]);
      if n > 0 {
        StepKeepsFirst(Lower(ns[..n]).value, ns[n]);
      }
    }
  }

  lemma {:induction false} StepTotal(st: Lowering, u: Base)
    requires Drawable(u)
    ensures Step(st, u).Ok? && Step(st, u).value.last.Some?
    ensures Step(st, u).value.first.Some?
    decreases Size(u), 0
  {
    match u
    case Node(_, _, _, _, _, _) =>
    case ConditionalNode(_, _, _, _, _, _, t, f) =>
      MembersDrawable(t);
      MembersDrawable(f);
      LowerTotal(Members(t));
      LowerTotal(Members(f));
    case Layer(_, _, _, cs) =>
      LowerEachTotal(cs);
    case Chain(_, _, _, cs) =>
      LowerTotal(cs);
  }

  lemma {:induction false} LowerEachTotal(cs: seq<Base>)
    requires forall i :: 0 <= i < |cs| ==> Drawable(cs[i]) && !cs[i].Layer?
    ensures LowerEach(cs).Ok? && AllFirst(LowerEach(cs).value) && AllLast(LowerEach(cs).value)
    decreases SizeSeq(cs), 2
  {
    if cs != [] {
      var n := |cs| - 1;
      LowerEachTotal(cs[..n]);
      MembersDrawable(cs[n]);
      LowerTotal(Members(cs[n]));
    }
  }

  // ---------------------------------------------------------------------------
  // Chain.view text
  // ---------------------------------------------------------------------------

  /**
   * The text starts with the flowchart header and ends with the style
   * classes; it exists exactly when the lowering succeeds, so always for a
   * drawable Chain.
   */
  lemma ViewTextFrame(direction: string, nodes: seq<Base>)
    ensures ViewText(direction, nodes).Ok? <==> Lower(nodes).Ok?
    ensures var h := "flowchart " + direction + ";\n";
      ViewText(direction, nodes).Ok? ==>
        && |h| + |CssMermaid| <= |ViewText(direction, nodes).value|
        && ViewText(direction, nodes).value[..|h|] == h
        && ViewText(direction, nodes).value[|ViewText(direction, nodes).value| - |CssMermaid|..] == CssMermaid
  {
    if Lower(nodes).Ok? {
      var h := "flowchart " + direction + ";\n";
      var m := Join(RenderAll(Lower(nodes).value.lines));
      var t := h + m + CssMermaid;
      assert t[..|h|] == h;
      assert t[|t| - |CssMermaid|..] == CssMermaid;
    }
  }

  lemma ViewTextDrawable(direction: string, c: Base)
    requires c.Chain? && Drawable(c)
    ensures ViewText(direction, c.nodes).Ok?
  {
    LowerTotal(c.nodes);
  }

  lemma DigitInjective(a: nat, b: nat)
    requires a < 10 && b < 10 && Digit(a) == Digit(b)
    ensures a == b
  {
  }

  /** Distinct ids are written as distinct labels. */
  lemma {:induction false} NatToStringInjective(a: nat, b: nat)
    requires NatToString(a) == NatToString(b)
    ensures a == b
  {
    var sa := NatToString(a);
    if a < 10 && b < 10 {
      DigitInjective(a, b);
    } else if a >= 10 && b >= 10 {
      var pa := NatToString(a / 10);
      var pb := NatToString(b / 10);
      assert sa == pa + [Digit(a % 10)] && sa == pb + [Digit(b % 10)];
      assert |pa| == |pb|;
      assert pa == sa[..|sa| - 1] == pb;
      DigitInjective(a % 10, b % 10);
      NatToStringInjective(a / 10, b / 10);
    }
  }

  // ---------------------------------------------------------------------------
  // The loops of _create_mermaid
  // ---------------------------------------------------------------------------

  lemma {:induction false} LowerPrefixErr(ns: seq<Base>, k: nat)
    requires k <= |ns| && Lower(ns[..k]).Err?
    ensures Lower(ns).Err?
  {
    if Lower(ns).Ok? {
      LowerPrefixOk(ns, k);
    }
  }

  lemma {:induction false} LowerEachPrefixErr(cs: seq<Base>, k: nat)
    requires k <= |cs| && LowerEach(cs[..k]).Err?
    ensures LowerEach(cs).Err?
  {
    if k < |cs| {
      assert cs[..|cs| - 1][..k] == cs[..k];
      LowerEachPrefixErr(cs[..|cs| - 1], k);
    } else {
      assert cs[..k] == cs;
    }
  }

  /** The nested edge loops: one edge from each of `xs` to each of `ys`, appended to `lines`. */
  method AppendCross(lines: seq<Stmt>, xs: seq<Base>, ys: seq<Base>, edgeLabel: Label) returns (out: seq<Stmt>)
    ensures out == lines + Cross(xs, ys, edgeLabel)
  {
    out := lines;
    var i := 0;
    while i < |xs|
      invariant 0 <= i <= |xs|
      invariant out == lines + Cross(xs[..i], ys, edgeLabel)
    {
      out := AppendEdges(out, xs[i], ys, edgeLabel);
      assert xs[..i + 1][..i] == xs[..i];
      i := i + 1;
    }
    assert xs[..|xs|] == xs;
  }

  /** The inner edge loop: one edge from `x` to each of `ys`, in order. */
  method AppendEdges(lines: seq<Stmt>, x: Base, ys: seq<Base>, edgeLabel: Label) returns (out: seq<Stmt>)
    ensures out == lines + EdgesFrom(x, ys, edgeLabel)
  {
    out := lines;
    var j := 0;
    while j < |ys|
      invariant 0 <= j <= |ys|
      invariant out == lines + EdgesFrom(x, ys[..j], edgeLabel)
    {
      assert EdgesFrom(x, ys[..j + 1], edgeLabel) == EdgesFrom(x, ys[..j], edgeLabel) + [Edge(x.id, ys[j].id, edgeLabel)];
      out := out + [Edge(x.id, ys[j].id, edgeLabel)];
      j := j + 1;
    }
    assert ys[..|ys|] == ys;
  }

  /** `_create_mermaid(nodes)`: the loop over the elements. */
  method CreateMermaid(nodes: seq<Base>) returns (r: Result<Lowering>)
    ensures r == Lower(nodes)
    decreases SizeSeq(nodes), 2
  {
    var st := Lowering(None, [], None);
    var i := 0;
    while i < |nodes|
      invariant 0 <= i <= |nodes|
      invariant Lower(nodes[..i]) == Ok(st)
    {
      SizeElem(nodes, i);
      var next := LowerStep(st, nodes[i]);
      assert nodes[..i + 1][..i] == nodes[..i];
      if next.Err? {
        LowerPrefixErr(nodes, i + 1);
        return next;
      }
      st := next.value;
      i := i + 1;
    }
    assert nodes[..|nodes|] == nodes;
    r := Ok(st);
  }

  /** `list_layer`: lower each child of a Layer, in order. */
  method LowerChildren(cs: seq<Base>) returns (r: Result<seq<Lowering>>)
    ensures r == LowerEach(cs)
    decreases SizeSeq(cs), 3
  {
    var acc: seq<Lowering> := [];
    var i := 0;
    while i < |cs|
      invariant 0 <= i <= |cs|
      invariant LowerEach(cs[..i]) == Ok(acc)
    {
      SizeElem(cs, i);
      var l := CreateMermaid(Members(cs[i]));
      assert cs[..i + 1][..i] == cs[..i];
      if l.Err? {
        LowerEachPrefixErr(cs, i + 1);
        return Err(l.error);
      }
      acc := acc + [l.value];
      i := i + 1;
    }
    assert cs[..|cs|] == cs;
    r := Ok(acc);
  }

  /** The body of the `_create_mermaid` loop for one element, by its kind. */
  method LowerStep(st: Lowering, u: Base) returns (r: Result<Lowering>)
    ensures r == Step(st, u)
    decreases Size(u), 1
  {
    match u
    case Node(_, _, _, _, _, _) => r := LowerNode(st, u);
    case ConditionalNode(_, _, _, _, _, _, _, _) => r := LowerConditional(st, u);
    case Layer(_, _, _, _) => r := LowerLayer(st, u);
    case Chain(_, _, _, _) => r := LowerChain(st, u);
  }

  /** A Node: declare it and join the previous frontier to it. */
  method LowerNode(st: Lowering, u: Base) returns (r: Result<Lowering>)
    requires u.Node?
    ensures r == Step(st, u)
    decreases Size(u), 0
  {
    var first := st.first;
    var lines := st.lines + [Declare(u.id, u.name, Rectangle)];
    if first.None? {
      first := Some([u]);
    }
    if st.last.Some? {
      lines := AppendCross(lines, st.last.value, [u], Plain);
    } else {
      assert lines + Incoming(st.last, u) == lines;
    }
    r := Ok(Lowering(first, lines, Some([u])));
  }

  /** A ConditionalNode: a diamond, labelled edges into both branches, then both branches' lines. */
  method LowerConditional(st: Lowering, u: Base) returns (r: Result<Lowering>)
    requires u.ConditionalNode?
    ensures r == Step(st, u)
    decreases Size(u), 0
  {
    var first := st.first;
    var lines := st.lines + [Declare(u.id, u.name, Diamond)];
    var lt := CreateMermaid(Members(u.trueNode));
    if lt.Err? {
      return Err(lt.error);
    }
    var lf := CreateMermaid(Members(u.falseNode));
    if lf.Err? {
      return Err(lf.error);
    }
    if lt.value.first.None? || lf.value.first.None? {
      return Err(TypeError);
    }
    lines := AppendCross(lines, [u], lt.value.first.value, TrueLabel);
    lines := AppendCross(lines, [u], lf.value.first.value, FalseLabel);
    lines := lines + Bracket(u.trueNode.Chain?, lt.value.lines);
    lines := lines + Bracket(u.falseNode.Chain?, lf.value.lines);
    if st.last.Some? {
      lines := AppendCross(lines, st.last.value, [u], Plain);
    } else {
      assert lines + Incoming(st.last, u) == lines;
    }
    if first.None? {
      first := Some([u]);
    }
    if lf.value.last.None? || lt.value.last.None? {
      return Err(TypeError);
    }
    r := Ok(Lowering(first, lines, Some(lf.value.last.value + lt.value.last.value)));
  }

  /** The children's lines in order, each Chain's inside a subgraph. */
  method AppendBrackets(lines: seq<Stmt>, cs: seq<Base>, ls: seq<Lowering>) returns (out: seq<Stmt>)
    requires |cs| == |ls|
    ensures out == lines + BracketEach(cs, ls)
  {
    out := lines;
    var i := 0;
    while i < |cs|
      invariant 0 <= i <= |cs|
      invariant out == lines + BracketEach(cs[..i], ls[..i])
    {
      assert cs[..i + 1][..i] == cs[..i] && ls[..i + 1][..i] == ls[..i];
      out := out + Bracket(cs[i].Chain?, ls[i].lines);
      i := i + 1;
    }
    assert cs[..|cs|] == cs && ls[..|ls|] == ls;
  }

  /** A Layer: every child's lines, then edges from the frontier to every child's entry. */
  method LowerLayer(st: Lowering, u: Base) returns (r: Result<Lowering>)
    requires u.Layer?
    ensures r == Step(st, u)
    decreases Size(u), 0
  {
    var first := st.first;
    var cs := u.nodes;
    var ls := LowerChildren(cs);
    if ls.Err? {
      return Err(ls.error);
    }
    var layer := ls.value;
    var lines := AppendBrackets(st.lines, cs, layer);
    if first.None? {
      if !AllFirst(layer) {
        return Err(TypeError);
      }
      first := Some(Firsts(layer));
    }
    if st.last.Some? {
      if st.last.value != [] && !AllFirst(layer) {
        return Err(TypeError);
      }
      var entries := if AllFirst(layer) then Firsts(layer) else [];
      lines := AppendCross(lines, st.last.value, entries, Plain);
    } else {
      assert lines + [] == lines;
    }
    if !AllLast(layer) {
      return Err(TypeError);
    }
    r := Ok(Lowering(first, lines, Some(Lasts(layer))));
  }

  /** A Chain: its lines inside a subgraph, entered from the frontier at its first elements. */
  method LowerChain(st: Lowering, u: Base) returns (r: Result<Lowering>)
    requires u.Chain?
    ensures r == Step(st, u)
    decreases Size(u), 0
  {
    var first := st.first;
    var lc := CreateMermaid(u.nodes);
    if lc.Err? {
      return Err(lc.error);
    }
    var lines := st.lines + Bracket(true, lc.value.lines);
    if first.None? {
      first := lc.value.first;
    }
    if st.last.Some? {
      if st.last.value != [] && lc.value.first.None? {
        return Err(TypeError);
      }
      var entries := if lc.value.first.Some? then lc.value.first.value else [];
      lines := AppendCross(lines, st.last.value, entries, Plain);
    } else {
      assert lines + [] == lines;
    }
    r := Ok(Lowering(first, lines, lc.value.last));
  }
}
