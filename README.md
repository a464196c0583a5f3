# streamgraph graph engine in Dafny

This project models the core of streamgraph, a small Python library for
composing callables into graphs. A graph value is one of four kinds:

- a `Node`, which wraps a callable;
- a `ConditionalNode`, which runs one of two branches depending on a boolean predicate;
- a `Layer`, which runs its children side by side;
- a `Chain`, which runs its children one after another.

The model covers three things:

- how graph values are built: operand checking, conversion of raw lists into Layers, the constructors, `add_node` and the `>>`/`<<` operators, and the `node` decorator;
- how they run (`__call__`);
- how a Chain is lowered to a Mermaid flowchart (`_create_mermaid` and the text assembly of `Chain.view`).

It also models the helpers of `streamgraph/utils.py`: the argument mapper `_input_args`, the signature helpers and the id generator.

Modules:

- `Wrappers`: `Option`, `Result` and the three Python exceptions the core raises (`AssertionError`, `TypeError`, `AttributeError`).
- `Utils` (`streamgraph/utils.py`):
  - the `IdCounter` class, which mirrors the `_id_counter` generator;
  - `GetArgs` and `IsPositionalOrKeyword`, which work over an abstract signature (a sequence of name and kind pairs);
  - the pure function `InputArgs` and its properties.
- `Graph`: the datatype `Base` for the four kinds, plus the structure shared by the other modules. This covers sizes, `Members` (what `hasattr(x, "_nodes")` selects), ids in pre-order, erasure of ids, and `Constructible`, the containment rules construction enforces.
- `Identity`: `_reset_id`, as a loop over an `IdCounter` (`ResetIds`/`ResetOne`), proved equal to a pure relabelling `Refresh`. The relabelling as written is modelled next to it.
- `Execute`: the four `__call__` methods and the Chain loop (`CallChain`).
- `Compose`: the construction side:
  - `_check_input_node` and `_convert_parallel_node`;
  - the four constructors, `add_node`, the operator dunders and the `node` decorator.
- `Mermaid` (lowering and view text):
  - `_create_mermaid` as loops (`CreateMermaid`, `LowerStep` and the per-kind methods), each proved equal to the pure lowering `Lower`;
  - the Mermaid statements and their text, and the text of `Chain.view`.

Ids are natural numbers drawn from an `IdCounter` instead of `uuid.uuid4()`. Each constructor and each `_reset_id` draws ids from the counter in the order the code calls `uuid4`. The one exception is the corrected relabelling under "## Findings": it also draws ids for the branches of a ConditionalNode nested as a branch, where the code calls no `uuid4`. The key invariant proved about them is `FreshIn`: every id in a newly built tree is distinct, and each one was issued by the call that built the tree.

Where the project's own documentation and the code disagree, the model follows the code:

- Every `__call__`, including `Chain.__call__`, catches an exception, logs it and returns `None`. It does not re-raise.
- The default names of a Chain and a Layer are the constants `"Chain"` and `"Layer"`.
- Composing two Chains does not give a Chain with the children of both. `add_node` splices only the children of `self`, and `other` stays a single child (streamgraph/base.py:231-234). So `Chain >> Chain` has one child more than the left Chain (`Compose.Spliced`).
- `_convert_parallel_node` (streamgraph/base.py:159-174) is documented to turn nested lists, tuples and dicts into inner Layers. In the code this can never succeed:
  - In a list, the inner Layer written back makes the outer `Layer(...)` fail its no-Layer-in-a-Layer assertion.
  - In a tuple, writing the item back raises TypeError.
  - A dict fails in `_reset_id`, which runs over its keys.
  
  The model therefore makes every operand with a nested collection an error (`Compose.Converted`, `Compose.ConvertParallelNode`).

## Model

| member | source | states |
|---|---|---|
| Utils.IdCounter.constructor | streamgraph/utils.py:98 | the first value yielded is 1 and nothing has been issued yet |
| Utils.IdCounter.Next | streamgraph/utils.py:99-101 | yields the counter and then increments it, so each id is one more than the last and was never issued before |
| Utils.GetArgs | streamgraph/utils.py:202-211 | one name per parameter, in order; a var-positional name gets the suffix `*`, a var-keyword name `**`, and every other name is unchanged |
| Utils.IsPositionalOrKeyword | streamgraph/utils.py:170-174 | true exactly when some parameter is var-positional or var-keyword |
| Utils.InputArgs | streamgraph/utils.py:133-145 | every key of the mapping is a parameter name |
| Utils.InputArgsKeywordsOnly | streamgraph/utils.py:133-135 | with no positional arguments, the mapping is exactly kwargs restricted to the parameter names |
| Utils.InputArgsKeywordPrecedence | streamgraph/utils.py:133-144 | a parameter supplied by keyword keeps the keyword's value, whatever positional arguments are given |
| Utils.InputArgsKeys | streamgraph/utils.py:133-144 | a name is a key exactly when it is a named keyword parameter or one of the first `min(len(args), len(remaining))` unassigned parameters |
| Utils.InputArgsPositional | streamgraph/utils.py:137-144 | the i-th positional argument is bound to the i-th parameter not named by keyword |
| Utils.InputArgsPositionalCount | streamgraph/utils.py:138-144 | exactly `min(len(args), len(remaining))` keys come from positional arguments |
| Utils.InputArgsExcessDropped | streamgraph/utils.py:139-140 | positional arguments beyond the unassigned parameters are dropped without error |
| Utils.InputArgsNothingRemaining | streamgraph/utils.py:137-138 | when keywords name every parameter, positional arguments are ignored entirely |
| Identity.Refresh | streamgraph/base.py:17-33 | the copy has as many elements as the input, and the counter never goes back |
| Identity.RefreshOne | streamgraph/base.py:19-32 | one copied element takes the next id itself, before anything it contains, and draws at least one id |
| Identity.RefreshIds | streamgraph/base.py:17-33 | the copies carry exactly the consecutive ids drawn from the counter, in pre-order, and the counter only grows |
| Identity.RefreshOneIds | streamgraph/base.py:19-32 | one copied element and everything inside it carry consecutive fresh ids, its own id first |
| Identity.RefreshFresh | streamgraph/base.py:17-33 | every id of the copies is distinct and was drawn during this call |
| Identity.RefreshShape | streamgraph/base.py:17-33 | same length and order; every element and every descendant keeps its kind, name, description, arguments and callable |
| Identity.RefreshOneShape | streamgraph/base.py:19-32 | one copied element equals the original except for ids, recursively |
| Identity.RefreshAsWritten | streamgraph/base.py:17-33 | the relabelling as the code does it keeps the length |
| Identity.AsWrittenCopiesShareIds | streamgraph/base.py:21-30 | as written, two copies of a ConditionalNode whose true branch is a ConditionalNode still share the innermost branch, with its original ids |
| Identity.BranchAsWrittenKeepsBranches | streamgraph/base.py:22-25 | as written, a ConditionalNode used as a branch gets a fresh id but keeps its own branches untouched |
| Identity.RefreshSeparatesCopies | streamgraph/base.py:17-33 | with deep relabelling, those two copies get different ids in the innermost branch |
| Identity.ResetIds | streamgraph/base.py:17-33 | the loop returns the relabelled copies and leaves the counter where `Refresh` says; the counter never goes back |
| Identity.ResetOne | streamgraph/base.py:19-32 | one loop iteration does what `RefreshOne` says: the element gets the id drawn first, and the counter advances |
| Execute.Call | streamgraph/base.py:239-458 | one call of any graph value (all four `__call__` methods); a Layer returns a list with one result per child |
| Execute.Invoke | streamgraph/base.py:392-402 | a variadic callable gets args and kwargs unchanged; any other gets no positional arguments and the `_input_args` mapping as keywords (stated through `Execute.NodeCall`) |
| Execute.ChainRun | streamgraph/base.py:241-259 | the Chain loop inside its `try`: the last child's value, or a raise in the Chain's own frame; one child or none never raises |
| Execute.Then | streamgraph/base.py:246-258 | one more step of the loop: once a step has raised, the rest are skipped |
| Execute.Feed | streamgraph/base.py:249-258 | a later Chain child called with the previous result spread by its shape; it raises exactly when the result is a dict with the key "self", which no `__call__(self, ...)` can take by keyword |
| Execute.SpreadArgs | streamgraph/base.py:250-258 | the positional arguments a result becomes: a list's items, nothing for a dict, and otherwise the value itself |
| Execute.SpreadKwargs | streamgraph/base.py:253-255 | the keyword arguments a result becomes: a dict's entries, otherwise none. A dict with the key "self" never reaches a child: `Execute.Feed` raises first |
| Execute.CallEach | streamgraph/base.py:336-338 | one result per child |
| Execute.CallChain | streamgraph/base.py:239-261 | the loop that threads `x` through the children returns the value of calling the Chain, and returns None as soon as a dict result with the key "self" cannot be spread |
| Execute.NodeCall | streamgraph/base.py:388-404 | a non-variadic callable is invoked with exactly the `_input_args` mapping as keywords, a variadic one with args and kwargs unchanged, and an exception gives None |
| Execute.ConditionalCall | streamgraph/base.py:436-458 | predicate True runs the true branch with the original arguments, False runs the false branch, and a raise or non-bool result gives None |
| Execute.CallEachAt | streamgraph/base.py:336-338 | the i-th result is the i-th child called with the same arguments |
| Execute.LayerCall | streamgraph/base.py:316-341 | a Layer returns a list with one result per child, in child order, each child receiving identical args and kwargs |
| Execute.ChainSteps | streamgraph/base.py:244-261 | the first child gets the original arguments, each later child the previous result spread by its shape, and the Chain returns the last result, or None after a raise |
| Execute.RaisedStays | streamgraph/base.py:244-261 | once a step of the loop raises, the whole loop has raised: no later child changes the outcome |
| Execute.ChainOfTwo | streamgraph/base.py:250-261 | a list result is spread positionally, a dict result as keywords (None when it has the key "self"), and anything else is passed as one positional argument |
| Execute.CallIgnoresIds | streamgraph/base.py:388-456 | two trees equal up to ids return the same value on every input |
| Execute.CallEachIgnoresIds | streamgraph/base.py:336-338 | Layer children equal up to ids give the same results |
| Execute.ChainRunIgnoresIds | streamgraph/base.py:244-259 | Chain children equal up to ids give the same outcome |
| Execute.ChainRunAppend | streamgraph/base.py:244-259 | the loop over `a + b` is the loop over `a`, then, unless it raised or produced a dict with the key "self", the loop over `b` fed its result |
| Execute.ChainSplice | streamgraph/base.py:244-261 | a Chain running `a + c.nodes` returns the same as a Chain running `a` and then the Chain `c` as one child |
| Compose.Leaves | streamgraph/base.py:145-152 | the leaves of an operand contain no collection |
| Compose.CheckInputNode | streamgraph/base.py:143-156 | the only error the check raises is TypeError |
| Compose.CheckInputNodeLeaves | streamgraph/base.py:143-156 | the check passes exactly when no leaf anywhere in nested lists, tuples and dicts is a foreign object |
| Compose.ForeignItemFails | streamgraph/base.py:145-156 | a foreign item in a collection makes the check raise TypeError |
| Compose.ConvertedChecked | streamgraph/base.py:159-174 | whatever conversion accepts has passed the check |
| Compose.ConstructibleIgnoresIds | streamgraph/base.py:218-219 | the containment rules hold of a tree exactly when they hold of any copy that differs only in ids |
| Compose.NewChain | streamgraph/base.py:216-224 | fewer than two children raise AssertionError, a foreign leaf TypeError, and a nested collection AttributeError; success means fresh copies of the children in order, the given name and description, and fresh ids |
| Compose.CopyChildren | streamgraph/base.py:219-224 | `_reset_id` on the children and then one id for the new entity: the copies equal the children up to ids, keep each child's kind and rules, and every id is fresh |
| Compose.NewLayer | streamgraph/base.py:287-301 | a non-collection raises TypeError and a Layer item AssertionError; a foreign leaf raises TypeError, and a nested collection or a non-empty dict AttributeError; success means a flat list with no Layer or an empty dict, copied in order with fresh ids |
| Compose.ConvertParallelNode | streamgraph/base.py:159-174 | a graph value comes back unchanged and a foreign object fails with TypeError; a collection succeeds exactly when `Converted` allows, as a Layer with fresh ids. Every error is the one `ConvertFailure` names. A collection holding a nested collection always fails: with AssertionError for a list, TypeError for a tuple, and AttributeError for a dict (TypeError if the dict has a foreign item), unless converting an inner collection fails first |
| Compose.ConvertItems | streamgraph/base.py:162-172 | the loop over the items: a failure is the one `ConvertFailure` names and comes from a nested collection; with no failure every nested collection was written back as a Layer, everything else is unchanged, and a tuple had no nested collection |
| Compose.WrapNested | streamgraph/base.py:174 | the outer `Layer(inputs)` after inner Layers were written back always fails: AssertionError for a list; for a dict, TypeError on a foreign item and AttributeError otherwise |
| Compose.WrapFlat | streamgraph/base.py:174 | the outer `Layer(inputs)` with nothing written back succeeds exactly when `Converted` does, and fails with the error `LayerFailure` names |
| Compose.ConvertFailure | streamgraph/base.py:159-174 | the reference for conversion errors: the first failing nested collection's error, TypeError for writing back into a tuple, and otherwise the outer `Layer(inputs)`'s error |
| Compose.LayerFailure | streamgraph/base.py:287-301 | the error `Layer.__init__` raises on a flat collection, in its order: AssertionError for a Layer item in a list or tuple, then TypeError from the check, then AttributeError for a non-empty dict |
| Compose.ConvertFailureIffConverted | streamgraph/base.py:159-174 | conversion has an error exactly when `Converted` has no result |
| Compose.Converted | streamgraph/base.py:159-174 | what conversion succeeds with, ids aside. A non-graph result is a Layer named "Layer", and an operand with a nested collection never converts |
| Compose.NewNode | streamgraph/base.py:353-373 | name and description are the overrides if given, else `__name__` and the docstring; the arguments come from `_get_args` and the variadic flag from `_is_positional_or_keyword`; one fresh id |
| Compose.NewConditionalNode | streamgraph/base.py:417-434 | the Node part plus copies of both branches, equal to them up to ids, with all ids fresh |
| Compose.NodeDecorator | streamgraph/base.py:177-191 | a ConditionalNode exactly when `conditional` is set and both branches are given, otherwise a plain Node |
| Compose.Spliced | streamgraph/base.py:231-234 | the new children: one more than a Chain's, otherwise two, with `other` first when `before` is set and last otherwise |
| Compose.AddNodeResult | streamgraph/base.py:226-236 | what `add_node` returns: TypeError from the check, then the error `ConvertFailure` names for the conversion, AssertionError for an empty Chain, otherwise a Chain named "Chain" with the spliced children up to ids |
| Compose.AddLayerInListFails | streamgraph/base.py:229-230 | `x >> [layer]`: the conversion's outer `Layer(inputs)` fails its no-Layer assertion (lines 290-291), so `add_node` fails with AssertionError |
| Compose.AddNode | streamgraph/base.py:226-236 | TypeError from the check, else the conversion's error as `ConvertFailure` names it; otherwise a new Chain named "Chain" with children `[other] + nodes` or `nodes + [other]` for a Chain, `[other, self]` or `[self, other]` otherwise, and all ids fresh |
| Compose.SpliceInto | streamgraph/base.py:381-386 | builds the Chain of the spliced children and relabels it again, so its ids are fresh and its children are, up to ids, those spliced |
| Compose.RelabelChain | streamgraph/base.py:313 | the second `_reset_id` keeps the Chain's id and shape and leaves every id fresh |
| Compose.RShift | streamgraph/base.py:200-201 | `>>` is `add_node(other, before=False)` |
| Compose.RLShift | streamgraph/base.py:204-205 | the reflected `<<` is `add_node(other, before=False)` |
| Compose.LShift | streamgraph/base.py:208-209 | `<<` is `add_node(other, before=True)` |
| Compose.RRShift | streamgraph/base.py:212-213 | the reflected `>>` is `add_node(other, before=True)` |
| Compose.AddNodeRunsInOrder | streamgraph/base.py:231-234 | the composed Chain runs `self` and feeds its result to `other`, or the reverse when `before` is set. A spliced Chain `self` whose own loop raises ends the composed Chain with None, without running `other` |
| Mermaid.Lower | streamgraph/base.py:36-138 | lowering only ever fails with TypeError |
| Mermaid.Step | streamgraph/base.py:40-136 | one element's step only ever fails with TypeError |
| Mermaid.LowerEach | streamgraph/base.py:97-102 | one lowering per Layer child, and only TypeError |
| Mermaid.Render | streamgraph/base.py:44-134 | the text of each statement: `id{name}:::diamond;`, `id[name]:::rectangle;`, `a --> b;`, `a -- True --> b;`, `a -- False --> b;`, `subgraph " ";` and `end;` |
| Mermaid.Join | streamgraph/base.py:264 | joins the lines with newlines, none before the first or after the last |
| Mermaid.ViewText | streamgraph/base.py:264-265 | the flowchart header, the joined lines and the style classes; it fails where lowering fails (stated in `Mermaid.ViewTextFrame`) |
| Graph.Members | streamgraph/base.py:46-54 | what a branch or Layer child is lowered or relabelled through: its `_nodes` if it has them, otherwise itself |
| Graph.Constructible | streamgraph/base.py:218-291 | the containment rules construction enforces: a Chain has at least two children and a Layer has no Layer child, recursively |
| Mermaid.NatToStringInjective | streamgraph/base.py:44 | distinct ids are written as distinct labels |
| Mermaid.CrossSize | streamgraph/base.py:115-118 | every exit node is joined to every entry: `len(xs) * len(ys)` edges |
| Mermaid.CrossAt | streamgraph/base.py:115-118 | the edge for the pair `(xs[i], ys[j])` comes at position `i * len(ys) + j` |
| Mermaid.LowerEmpty | streamgraph/base.py:37-39 | an empty list gives `(None, [], None)` |
| Mermaid.LowerOneNode | streamgraph/base.py:86-95 | a single Node gives exactly the line `id[name]:::rectangle;`, with first and last both `[node]` |
| Mermaid.LowerTwoNodes | streamgraph/base.py:86-95 | `[a, b]` gives the two declarations and exactly one edge `a --> b`, with first `[a]` and last `[b]` |
| Mermaid.LowerPrefixOk | streamgraph/base.py:40-136 | if a list lowers, so does every prefix of it |
| Mermaid.StepKeepsFirst | streamgraph/base.py:82-83 | once the entry frontier is set, no later element changes it |
| Mermaid.FirstFixed | streamgraph/base.py:89-90 | the entry frontier is the one the first element sets |
| Mermaid.LastIgnoresState | streamgraph/base.py:85-136 | the exit frontier after a step depends only on the element |
| Mermaid.LastFromLastElement | streamgraph/base.py:85-136 | a list's exit frontier is the one its last element produces |
| Mermaid.NodeStep | streamgraph/base.py:86-95 | a Node's step emits its declaration and one edge from each node of the exit frontier, in order, and becomes the exit frontier |
| Mermaid.ConditionalUnfold | streamgraph/base.py:42-85 | a ConditionalNode with lowered branches emits the diamond, the True and False edges, both branch line blocks (a Chain branch bracketed) and the incoming edges |
| Mermaid.ConditionalFrontier | streamgraph/base.py:56-85 | a ConditionalNode's new exit frontier is the false branch's exit followed by the true branch's |
| Mermaid.ConditionalEdges | streamgraph/base.py:59-62 | right after the diamond come one True edge per entry of the true branch, then one False edge per entry of the false branch |
| Mermaid.LayerStep | streamgraph/base.py:96-120 | a Layer after a predecessor emits `len(last) * len(entries)` edges, from every exit node to every child's entries, and its exit is the children's exits concatenated |
| Mermaid.BalancedConcat | streamgraph/base.py:66 | two balanced blocks of lines in a row are balanced |
| Mermaid.BalancedBracket | streamgraph/base.py:64-67 | bracketing a balanced block in `subgraph`/`end` keeps it balanced |
| Mermaid.LowerBalanced | streamgraph/base.py:64-126 | every `subgraph " ";` line is matched by a later `end;` line |
| Mermaid.StepBalanced | streamgraph/base.py:40-136 | a step appends a balanced block to balanced lines |
| Mermaid.LowerEachBalanced | streamgraph/base.py:97-102 | every Layer child's lines are balanced |
| Mermaid.MembersDrawable | streamgraph/base.py:46-54 | a branch or child is lowered through its `_nodes`, which obey the same rules and are non-empty except for a Layer |
| Mermaid.LowerTotal | streamgraph/base.py:36-138 | a list of constructible graphs whose conditional branches are non-empty lowers without error, and if non-empty it sets both frontiers |
| Mermaid.StepTotal | streamgraph/base.py:40-136 | such an element always steps without error and leaves both frontiers set |
| Mermaid.LowerEachTotal | streamgraph/base.py:97-102 | such Layer children all lower, with both frontiers set |
| Mermaid.ViewTextFrame | streamgraph/base.py:264-265 | the text exists exactly when lowering succeeds; it starts with `flowchart <direction>;` and a newline, and ends with the style classes |
| Mermaid.ViewTextDrawable | streamgraph/base.py:263-265 | the view of a constructible Chain with non-empty conditional branches always has a text |
| Mermaid.AppendCross | streamgraph/base.py:115-118 | after the nested edge loops, the lines are the old lines followed by one edge for each pair, in loop order |
| Mermaid.AppendEdges | streamgraph/base.py:116-118 | the inner loop appends one edge from `x` to each of `ys`, in order |
| Mermaid.AppendBrackets | streamgraph/base.py:104-110 | the loop appends each child's lines in order, bracketing a Chain child's |
| Mermaid.CreateMermaid | streamgraph/base.py:36-138 | the `_create_mermaid` loop returns exactly the lowering `Lower` |
| Mermaid.LowerChildren | streamgraph/base.py:97-102 | the `list_layer` loop returns exactly `LowerEach` |
| Mermaid.LowerStep | streamgraph/base.py:40-136 | one loop iteration returns exactly `Step` |
| Mermaid.LowerNode | streamgraph/base.py:86-95 | the Node branch of the loop returns exactly `Step` |
| Mermaid.LowerConditional | streamgraph/base.py:42-85 | the ConditionalNode branch of the loop returns exactly `Step` |
| Mermaid.LowerLayer | streamgraph/base.py:96-120 | the Layer branch of the loop returns exactly `Step` |
| Mermaid.LowerChain | streamgraph/base.py:121-136 | the Chain branch of the loop returns exactly `Step` |

## Left out

- Network and file I/O in `Chain.view` (streamgraph/base.py:266-275): base64 encoding, the request to mermaid.ink and the file write. Only the text assembly is modelled.
- The thread pool in `Layer.__call__`: it is modelled as a sequential map whose results are in child order. Concurrency is not modelled.
- `Layer.__call__` with `os.cpu_count()` returning None: `None/2` raises TypeError and the call returns None (streamgraph/base.py:321, 340-341). The model treats the core count as always known, so this outcome is not expressible.
- Dicts with non-string keys returned by a Chain child: `Value.VDict` has string keys. In the code, `node(**x)` with such a dict raises TypeError and `Chain.__call__` returns None (streamgraph/base.py:253-255, 260-261). The model cannot express that input.
- Non-graph ConditionalNode branches: `trueNode` and `falseNode` are graph values (`Base`). The code deep-copies any object given as a branch and sets its `id`, both in `ConditionalNode.__init__` and through the decorator (streamgraph/base.py:423-431, 177-191). That fails with AttributeError for objects that take no attributes and succeeds for others. Neither outcome is expressible here.
- Logging (`logger.info`, `logger.error`). It is modelled only through its consequence: a caught exception makes the call return None.
- `uuid.uuid4`: replaced by the `IdCounter`. Ids are therefore rendered in diagrams as decimal numbers rather than uuid text.
- `deepcopy`: graph values are immutable datatypes, so a copy is the same value with new ids, and the caller's objects are never changed.
- `_convert_parallel_node` writes converted sub-collections back into the caller's list or dict. The model writes them into a local copy, so this aliasing is not modelled. The tuple case, where the write-back raises TypeError, is modelled.
- `inspect`: the name, docstring and signature of a callable are inputs (`Callable`). `_get_docs` is not part of this model.
- The bodies of user callables: an uninterpreted `Apply` that returns a value or raises. It is a mathematical function, so a callable is taken to be deterministic and free of state: the same arguments always give the same outcome. Execute.CallIgnoresIds, Execute.ChainSplice and Compose.AddNodeRunsInOrder rely on this.
- Execute.Call: a top-level call with a keyword argument named "self" raises TypeError to the caller in the code, before any `try`. The model has no raise out of a top-level call and treats "self" like any other keyword. Inside a Chain the same binding error is modelled (`Execute.Feed`).
- `__repr__` (JSON serialisation), `_deprecated_method` (the `warnings` module), and the `lru_cache(maxsize=2)` lines, which are bare expressions rather than decorators.
- Dict-form Layers. A dict operand is modelled by its values only; its keys play no part. A non-empty dict fails construction with AttributeError in `_reset_id`, so the dict branch of `Layer.__call__` (streamgraph/base.py:326-333) cannot be reached and is not modelled.
- Python values at call time are `Value`: None, bool, int, str, list and dict. A tuple result is modelled as a list, because the Chain spreads both the same way.
- `Foreign` stands for any non-iterable object passed as an operand. Strings and other iterables that are not list, tuple or dict are not modelled.
- Compose.NewChain: the children are taken as a list. A tuple behaves the same in the code. A dict of two or more entries fails in `_reset_id` with AttributeError, as a nested collection does here. That case is not a separate input.
- Compose.NewChain, Compose.NewLayer, Compose.ConvertParallelNode, Compose.AddNode: on an error path the contracts state only that the counter did not go back. How many ids were drawn before the error is not stated.
- Execute.CallChain: the calls inside the loop are the pure `Call` of each child. Each child's own `__call__` is not a separate method.
- Mermaid.LowerTotal, Mermaid.ViewTextDrawable: these assume a conditional branch that is a Layer or Chain has at least one child. The code can build a ConditionalNode whose branch is an empty Layer. That lowers with a None frontier and fails with TypeError, which `Step` models.

## Findings

| source | as written | input that shows it | evidently intended | confidence | as-written member | corrected member |
|---|---|---|---|---|---|---|
| streamgraph/base.py:21-30 | `_reset_id` (and `ConditionalNode.__init__`, lines 423-431) gives a ConditionalNode's branch a fresh id, and fresh ids to its `_nodes`. A branch that is itself a ConditionalNode keeps its own branches as they are. | `x = ConditionalNode(p, true_node=ConditionalNode(q, a, b), false_node=c)`; then `x >> x` gives two copies whose innermost true branches `a` share one id. | Relabel a branch all the way down, as Chain and Layer children are, so no two entities of a graph share an id. | not executed | Identity.AsWrittenCopiesShareIds | Identity.RefreshSeparatesCopies |

The rest of the model uses the corrected relabelling (`Identity.Refresh`, with `Identity.RefreshFresh` proved about it).
