/**
 * The helpers of streamgraph/utils.py: the sequential id generator, the
 * argument mapper, and the two signature helpers over an abstract parameter list.
 */
module Utils {

  /** The style-class block appended to every diagram (CSS_MERMAID). */
  const CssMermaid: string :=
    "\n\nclassDef rectangle fill:#89CFF0,stroke:#003366,stroke-width:2px;\n"
    + "classDef diamond fill:#98FB98,stroke:#2E8B57,stroke-width:2px,stroke-dasharray: 5;\n"
    + "classDef diamond_loop fill:#DDA0DD,stroke:#8A2BE2,stroke-width:2px,stroke-dasharray: 5;\n"

  // ---------------------------------------------------------------------------
  // _id_counter
  // ---------------------------------------------------------------------------

  /** The generator `_id_counter`: `next` is the value it yields next. */
  class IdCounter {
    var next: nat
    /** Every id yielded so far. */
    ghost var issued: set<nat>

    ghost predicate Valid()
      reads this
    {
      1 <= next && forall i :: i in issued ==> 1 <= i < next
    }

    constructor ()
      ensures Valid() && next == 1 && issued == {}
    {
      next := 1;
      issued := {};
    }

    /** One step of the generator: yield the counter, then add one to it. */
    method Next() returns (id: nat)
      requires Valid()
      modifies this
      ensures Valid()
      ensures id == old(next) && next == old(next) + 1
      ensures id !in old(issued) && issued == old(issued) + {id}
    {
      id := next;
      issued := issued + {id};
      next := next + 1;
    }
  }

  // ---------------------------------------------------------------------------
  // Signatures: _get_args and _is_positional_or_keyword
  // ---------------------------------------------------------------------------

  /** The kinds of `inspect.Parameter`. */
  datatype ParamKind = PositionalOnly | PositionalOrKeyword | VarPositional | KeywordOnly | VarKeyword

  datatype Param = Param(name: string, kind: ParamKind)

  /** A callable's parameters, in declaration order. */
  type Signature = seq<Param>

  predicate IsVariadic(p: Param)
  {
    p.kind == VarPositional || p.kind == VarKeyword
  }

  /** The name `_get_args` reports for one parameter. */
  function MarkedName(p: Param): string
  {
    match p.kind
    case VarPositional => p.name + "*"
    case VarKeyword => p.name + "**"
    case _ => p.name
  }

  /** `_get_args`: one entry per parameter, in order, variadic ones marked. */
  method GetArgs(sig: Signature) returns (listArgs: seq<string>)
    ensures |listArgs| == |sig|
    ensures forall i :: 0 <= i < |sig| && sig[i].kind == VarPositional ==> listArgs[i] == sig[i].name + "*"
    ensures forall i :: 0 <= i < |sig| && sig[i].kind == VarKeyword ==> listArgs[i] == sig[i].name + "**"
    ensures forall i :: 0 <= i < |sig| && !IsVariadic(sig[i]) ==> listArgs[i] == sig[i].name
  {
    listArgs := [];
    var i := 0;
    while i < |sig|
      invariant 0 <= i <= |sig|
      invariant |listArgs| == i
      invariant forall j :: 0 <= j < i ==> listArgs[j] == MarkedName(sig[j])
    {
      var p := sig[i];
      if p.kind == VarPositional {
        listArgs := listArgs + [p.name + "*"];
      } else if p.kind == VarKeyword {
        listArgs := listArgs + [p.name + "**"];
      } else {
        listArgs := listArgs + [p.name];
      }
      i := i + 1;
    }
  }

  /** `_is_positional_or_keyword`: does the callable take `*args` or `**kwargs`? */
  method IsPositionalOrKeyword(sig: Signature) returns (b: bool)
    ensures b <==> exists i :: 0 <= i < |sig| && IsVariadic(sig[i])
  {
    var i := 0;
    while i < |sig|
      invariant 0 <= i <= |sig|
      invariant forall j :: 0 <= j < i ==> !IsVariadic(sig[j])
    {
      if sig[i].kind == VarPositional || sig[i].kind == VarKeyword {
        return true;
      }
      i := i + 1;
    }
    return false;
  }

  // ---------------------------------------------------------------------------
  // _input_args
  // ---------------------------------------------------------------------------

  /** No name occurs twice (true of every Python signature). */
  predicate NoDuplicates(s: seq<string>)
  {
    forall i, j :: 0 <= i < j < |s| ==> s[i] != s[j]
  }

  /** The keyword arguments whose names are parameter names. */
  function Named<V>(kwargs: map<string, V>, params: seq<string>): (r: map<string, V>)
    ensures forall k :: k in r <==> k in kwargs && k in params
    ensures forall k :: k in r ==> r[k] == kwargs[k]
  {
    map k | k in kwargs && k in params :: kwargs[k]
  }

  /** `loss_node_arg`: the parameters not yet assigned, in parameter order. */
  function Unassigned(params: seq<string>, taken: set<string>): (r: seq<string>)
    ensures forall x :: x in r <==> x in params && x !in taken
    ensures |r| <= |params|
  {
    if params == [] then []
    else
      var last := params[|params| - 1];
      Unassigned(params[..|params| - 1], taken) + (if last in taken then [] else [last])
  }

  /** `{y: x for x, y in zip(values, names)}`: later pairs win on a repeated name. */
  function Zip<V>(values: seq<V>, names: seq<string>): (r: map<string, V>)
    requires |values| == |names|
    ensures forall k :: k in r <==> k in names
  {
    if values == [] then map[]
    else Zip(values[..|values| - 1], names[..|names| - 1])[names[|names| - 1] := values[|values| - 1]]
  }

  function Min(a: nat, b: nat): nat
  {
    if a < b then a else b
  }

  /** How many positional arguments `_input_args` uses. */
  function PositionalUsed<V>(args: seq<V>, kwargs: map<string, V>, params: seq<string>): nat
  {
    Min(|args|, |Unassigned(params, Named(kwargs, params).Keys)|)
  }

  /**
   * `_input_args`: keyword arguments named like a parameter keep their value;
   * positional arguments fill the remaining parameters in order; the excess is dropped.
   */
  function InputArgs<V>(args: seq<V>, kwargs: map<string, V>, params: seq<string>): (r: map<string, V>)
    ensures forall k :: k in r ==> k in params
  {
    var named := Named(kwargs, params);
    if |args| == 0 then named
    else
      var remaining := Unassigned(params, named.Keys);
      var n := Min(|args|, |remaining|);
      named + Zip(args[..n], remaining[..n])
  }

  // ---------------------------------------------------------------------------
  // Properties of _input_args
  // ---------------------------------------------------------------------------

  /** Without positional arguments the result is kwargs restricted to the parameter names. */
  lemma InputArgsKeywordsOnly<V>(args: seq<V>, kwargs: map<string, V>, params: seq<string>)
    requires |args| == 0
    ensures var r := InputArgs(args, kwargs, params);
      && (forall k :: k in r <==> k in kwargs && k in params)
      && (forall k :: k in r ==> r[k] == kwargs[k])
  {
  }

  /** A parameter supplied by keyword keeps its keyword value, whatever the positional arguments. */
  lemma InputArgsKeywordPrecedence<V>(args: seq<V>, kwargs: map<string, V>, params: seq<string>, k: string)
    requires k in kwargs && k in params
    ensures k in InputArgs(args, kwargs, params)
    ensures InputArgs(args, kwargs, params)[k] == kwargs[k]
  {
    var named := Named(kwargs, params);
    if |args| > 0 {
      var remaining := Unassigned(params, named.Keys);
      var n := Min(|args|, |remaining|);
      assert k !in Zip(args[..n], remaining[..n]);
    }
  }

  /** Every key of the result comes from kwargs or is one of the first unassigned parameters. */
  lemma InputArgsKeys<V>(args: seq<V>, kwargs: map<string, V>, params: seq<string>)
    ensures var remaining := Unassigned(params, Named(kwargs, params).Keys);
      var n := PositionalUsed(args, kwargs, params);
      forall k :: k in InputArgs(args, kwargs, params) <==> (k in kwargs && k in params) || k in remaining[..n]
  {
  }

  lemma {:induction false} UnassignedNoDuplicates(params: seq<string>, taken: set<string>)
    requires NoDuplicates(params)
    ensures NoDuplicates(Unassigned(params, taken))
  {
    if params != [] {
      var init := params[..|params| - 1];
      var last := params[|params| - 1];
      assert NoDuplicates(init);
      UnassignedNoDuplicates(init, taken);
      assert last !in init;
      assert last !in Unassigned(init, taken);
    }
  }

  lemma {:induction false} ZipAt<V>(values: seq<V>, names: seq<string>, i: nat)
    requires |values| == |names| && NoDuplicates(names) && i < |names|
    ensures names[i] in Zip(values, names) && Zip(values, names)[names[i]] == values[i]
  {
    var n := |names| - 1;
    if i < n {
      assert NoDuplicates(names[..n]);
      ZipAt(values[..n], names[..n], i);
      assert names[..n][i] == names[i] != names[n];
    }
  }

  /** The i-th positional argument goes to the i-th parameter not named by keyword. */
  lemma InputArgsPositional<V>(args: seq<V>, kwargs: map<string, V>, params: seq<string>, i: nat)
    requires NoDuplicates(params)
    requires i < PositionalUsed(args, kwargs, params)
    ensures var remaining := Unassigned(params, Named(kwargs, params).Keys);
      remaining[i] in InputArgs(args, kwargs, params) && InputArgs(args, kwargs, params)[remaining[i]] == args[i]
  {
    var named := Named(kwargs, params);
    var remaining := Unassigned(params, named.Keys);
    var n := Min(|args|, |remaining|);
    UnassignedNoDuplicates(params, named.Keys);
    assert NoDuplicates(remaining[..n]);
    ZipAt(args[..n], remaining[..n], i);
    assert remaining[..n][i] == remaining[i];
  }

  lemma {:induction false} DistinctCard(s: seq<string>)
    requires NoDuplicates(s)
    ensures |set x | x in s| == |s|
  {
    if s != [] {
      var init := s[..|s| - 1];
      assert NoDuplicates(init);
      DistinctCard(init);
      assert (set x | x in s) == (set x | x in init) + {s[|s| - 1]};
      assert s[|s| - 1] !in init;
    }
  }

  /**
   * Exactly min(|args|, |remaining|) positional arguments are used: that many
   * keys of the result do not come from kwargs.
   */
  lemma InputArgsPositionalCount<V>(args: seq<V>, kwargs: map<string, V>, params: seq<string>)
    requires NoDuplicates(params)
    ensures |InputArgs(args, kwargs, params).Keys - kwargs.Keys| == PositionalUsed(args, kwargs, params)
  {
    var named := Named(kwargs, params);
    var remaining := Unassigned(params, named.Keys);
    var n := Min(|args|, |remaining|);
    var r := InputArgs(args, kwargs, params);
    UnassignedNoDuplicates(params, named.Keys);
    assert NoDuplicates(remaining[..n]);
    DistinctCard(remaining[..n]);
    InputArgsKeys(args, kwargs, params);
    forall k | k in remaining[..n] ensures k !in kwargs {
      assert k in remaining;
    }
    assert r.Keys - kwargs.Keys == set x | x in remaining[..n];
  }

  /** Positional arguments beyond the unassigned parameters are dropped without error. */
  lemma InputArgsExcessDropped<V>(args: seq<V>, kwargs: map<string, V>, params: seq<string>)
    requires |args| > |Unassigned(params, Named(kwargs, params).Keys)|
    ensures var m := |Unassigned(params, Named(kwargs, params).Keys)|;
      InputArgs(args, kwargs, params) == InputArgs(args[..m], kwargs, params)
  {
    var named := Named(kwargs, params);
    var m := |Unassigned(params, named.Keys)|;
    if m == 0 {
      assert Zip(args[..0], Unassigned(params, named.Keys)[..0]) == map[];
    } else {
      assert args[..m][..m] == args[..m];
    }
  }

  /** When every parameter is named by keyword, positional arguments are ignored entirely. */
  lemma InputArgsNothingRemaining<V>(args: seq<V>, kwargs: map<string, V>, params: seq<string>)
    requires forall p :: p in params ==> p in kwargs
    ensures InputArgs(args, kwargs, params) == Named(kwargs, params)
  {
    var named := Named(kwargs, params);
    var remaining := Unassigned(params, named.Keys);
    if |args| > 0 {
      assert Zip(args[..0], remaining[..0]) == map[];
    }
  }
}
