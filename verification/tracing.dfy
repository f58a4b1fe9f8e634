/** The trace-graph bookkeeping of `Function::tracedApply` and
    `Function::setUpContextEdge`. The JIT graph is an append-only sequence of
    node records; a node is referred to by its position in that sequence. */
module Tracing {
  import opened Wrappers
  import opened Variables

  /** Position of a node in the trace graph. */
  type NodeRef = nat

  /** A node record of the trace graph.
      - `CppOp`: a C++ autograd function `op` applied to the traced values
        `inputs`.
      - `Select`: output `index` of node `of`; `typed` says whether its type
        was inferred from a produced value.
      - `HandleSelect`: the handle-typed context output `index` of node `of`. */
  datatype TraceNode =
    | CppOp(op: NodeId, inputs: seq<NodeRef>)
    | Select(of: NodeRef, index: nat, typed: bool)
    | HandleSelect(of: NodeRef, index: nat)

  type Graph = seq<TraceNode>

  /** What `tracedApply` knows about the function it runs:
      - `self`: the function's identity, recorded in its `CppOp`;
      - `name`: what `name()` reports;
      - `apply`: the function's own forward computation, which may throw;
      - `isTraceable`, `passesStateTransparently`: its capability flags;
      - `eval`: `Some(forward_ctx_select)` when the function is an `Eval`;
      - `inEvalSubgraph`: the function's own tracing-state flag;
      - `savedVariables`: what `saved_variables()` returns, already unpacked;
        `None` when the function does not implement it. */
  datatype FunctionInfo = FunctionInfo(
    self: NodeId,
    name: string,
    apply: seq<Variable> -> Result<seq<Variable>>,
    isTraceable: bool,
    passesStateTransparently: bool,
    eval: Option<NodeRef>,
    inEvalSubgraph: bool,
    savedVariables: Option<seq<Variable>>)

  /** A request to mark a backward subgraph as not traceable through. */
  datatype BackwardSubgraph = BackwardSubgraph(inputs: seq<Variable>, outputs: seq<Variable>)

  /** The backward `Eval` whose `forward_ctx_select` becomes `select`. */
  datatype ContextLink = ContextLink(eval: NodeId, select: NodeRef)

  /** Everything one `tracedApply` call leaves behind: the graph, the
      `setValueTrace` calls made (one per defined output position, keyed by
      that position, each naming the select it was given), the
      backward-subgraph marker request, the context link, and the outputs or
      the thrown error. */
  datatype Outcome = Outcome(
    graph: Graph,
    bindings: map<nat, NodeRef>,
    backwardSubgraph: Option<BackwardSubgraph>,
    link: Option<ContextLink>,
    result: Result<seq<Variable>>)

  /** Message of the `runtime_error` thrown when saved variables are needed
      but not implemented. */
  function MissingSavedVariables(name: string): string {
    "saved_variables() needed but not implemented in " + name
  }

  /** The function is an `Eval` whose `CppOp` consumes the handle from the
      forward node's context edge. */
  ghost predicate ConsumesContext(f: FunctionInfo) {
    !f.passesStateTransparently && f.eval.Some?
  }

  /** The call must wrap a backward subgraph but has no saved variables. */
  ghost predicate Throws(f: FunctionInfo) {
    !f.passesStateTransparently && !f.inEvalSubgraph && f.savedVariables.None?
  }

  /** The call appends the handle-typed context select. */
  ghost predicate AddsContextEdge(f: FunctionInfo) {
    !f.passesStateTransparently && !Throws(f) && (!f.inEvalSubgraph || f.eval.Some?)
  }

  datatype Recorded = Recorded(graph: Graph, bindings: map<nat, NodeRef>)

  /** The output loop of `tracedApply` from output `i` on: one `Select` of
      node `node` per output, in order, typed and with a `setValueTrace` call
      recorded only when the output is defined. */
  function RecordOutputs(graph: Graph, node: NodeRef, outputs: seq<Variable>, i: nat, bindings: map<nat, NodeRef>): (r: Recorded)
    requires i <= |outputs|
    ensures |r.graph| == |graph| + (|outputs| - i)
    ensures r.graph[..|graph|] == graph
    ensures forall j :: i <= j < |outputs| ==> r.graph[|graph| + (j - i)] == Select(node, j, outputs[j].defined)
    ensures forall j :: j in r.bindings <==> j in bindings || (i <= j < |outputs| && outputs[j].defined)
    ensures forall j :: j in r.bindings && !(i <= j < |outputs|) ==> r.bindings[j] == bindings[j]
    ensures forall j :: i <= j < |outputs| && outputs[j].defined ==> r.bindings[j] == |graph| + (j - i)
    decreases |outputs| - i
  {
    if i == |outputs| then Recorded(graph, bindings)
    else
      var sel := Select(node, i, outputs[i].defined);
      var bound := if outputs[i].defined then bindings[i := |graph|] else bindings;
      RecordOutputs(graph + [sel], node, outputs, i + 1, bound)
  }

  /** The link `setUpContextEdge` makes for a context select at `select`. */
  function LinkFor(
    inputs: seq<Variable>, outputs: seq<Variable>, select: NodeRef,
    backwardEval: (seq<Variable>, seq<Variable>) -> Option<NodeId>): Option<ContextLink>
  {
    match backwardEval(inputs, outputs)
    case Some(e) => Some(ContextLink(e, select))
    case None => None
  }

  /** `setUpContextEdge`: append the handle-typed select of output
      `ctxOutputNr` of `node`, and link it to the backward `Eval` that the
      lookup finds for these inputs and outputs, if any. */
  function SetUpContextEdge(
    graph: Graph, node: NodeRef, ctxOutputNr: nat,
    inputs: seq<Variable>, outputs: seq<Variable>,
    backwardEval: (seq<Variable>, seq<Variable>) -> Option<NodeId>): (r: (Graph, Option<ContextLink>))
    ensures |r.0| == |graph| + 1
    ensures r.0[..|graph|] == graph
    ensures r.0[|graph|] == HandleSelect(node, ctxOutputNr)
    ensures r.1.Some? <==> backwardEval(inputs, outputs).Some?
    ensures r.1.Some? ==> r.1.value == ContextLink(backwardEval(inputs, outputs).value, |graph|)
  {
    (graph + [HandleSelect(node, ctxOutputNr)], LinkFor(inputs, outputs, |graph|, backwardEval))
  }

  /** The `CppOp` for `f`, with one input per input, in input order: the
      trace the tracing state holds for the input at that position. */
  function CppOpFor(f: FunctionInfo, inputs: seq<Variable>, valueTrace: nat -> NodeRef): (op: TraceNode)
    ensures op.CppOp? && op.op == f.self && |op.inputs| == |inputs|
    ensures forall i :: 0 <= i < |inputs| ==> op.inputs[i] == valueTrace(i)
  {
    CppOp(f.self, seq(|inputs|, i requires 0 <= i < |inputs| => valueTrace(i)))
  }

  /** Whether a backward subgraph is wrapped, and with which inputs: the
      function's inputs followed by its saved variables. */
  function MarkedSubgraph(f: FunctionInfo, inputs: seq<Variable>, outputs: seq<Variable>): Option<BackwardSubgraph> {
    if !f.passesStateTransparently && !f.inEvalSubgraph && f.savedVariables.Some?
    then Some(BackwardSubgraph(inputs + f.savedVariables.value, outputs))
    else None
  }

  /** The backward wiring after the outputs are recorded in `graph` (which
      holds the `CppOp` at `node`) for a function that does not pass state
      transparently: an `Eval` gives its `CppOp` the forward context handle;
      outside an `Eval` subgraph the saved variables are required and the
      backward subgraph is wrapped; the context select is then appended unless
      the function sits inside an `Eval` subgraph without being an `Eval`. */
  function WireBackward(
    graph: Graph, node: NodeRef, f: FunctionInfo,
    inputs: seq<Variable>, outputs: seq<Variable>, bindings: map<nat, NodeRef>,
    backwardEval: (seq<Variable>, seq<Variable>) -> Option<NodeId>): (r: Outcome)
    requires node < |graph| && graph[node].CppOp?
    requires !f.passesStateTransparently
    ensures |r.graph| == |graph| + (if AddsContextEdge(f) then 1 else 0)
    ensures forall j :: 0 <= j < |graph| && j != node ==> r.graph[j] == graph[j]
    ensures r.graph[node] ==
      if f.eval.Some? then CppOp(graph[node].op, graph[node].inputs + [f.eval.value]) else graph[node]
    ensures AddsContextEdge(f) ==> r.graph[|graph|] == HandleSelect(node, |outputs|)
    ensures r.link == if AddsContextEdge(f) then LinkFor(inputs, outputs, |graph|, backwardEval) else None
    ensures r.bindings == bindings
    ensures r.backwardSubgraph == MarkedSubgraph(f, inputs, outputs)
    ensures r.result == if Throws(f) then Err(MissingSavedVariables(f.name)) else Ok(outputs)
  {
    var consumed :=
      if f.eval.Some? then graph[node := CppOp(graph[node].op, graph[node].inputs + [f.eval.value])]
      else graph;
    if !f.inEvalSubgraph && f.savedVariables.None? then
      Outcome(consumed, bindings, None, None, Err(MissingSavedVariables(f.name)))
    else
      var marked := MarkedSubgraph(f, inputs, outputs);
      if !f.inEvalSubgraph || f.eval.Some? then
        var (withContext, link) := SetUpContextEdge(consumed, node, |outputs|, inputs, outputs, backwardEval);
        Outcome(withContext, bindings, marked, link, Ok(outputs))
      else
        Outcome(consumed, bindings, marked, None, Ok(outputs))
  }

  /** The `CppOp` and the output selects, once `apply` has returned
      `outputs`: the op first, then one select per output. */
  function RecordCall(
    g: Graph, f: FunctionInfo, inputs: seq<Variable>, outputs: seq<Variable>,
    valueTrace: nat -> NodeRef): (r: Recorded)
    ensures |r.graph| == |g| + 1 + |outputs|
    ensures r.graph[..|g|] == g
    ensures r.graph[|g|] == CppOpFor(f, inputs, valueTrace)
    ensures forall i :: 0 <= i < |outputs| ==> r.graph[|g| + 1 + i] == Select(|g|, i, outputs[i].defined)
    ensures forall i :: i in r.bindings <==> 0 <= i < |outputs| && outputs[i].defined
    ensures forall i :: i in r.bindings ==> r.bindings[i] == |g| + 1 + i
  {
    var withOp := g + [CppOpFor(f, inputs, valueTrace)];
    var recorded := RecordOutputs(withOp, |g|, outputs, 0, map[]);
    assert recorded.graph[..|g|] == g by {
      assert recorded.graph[..|g| + 1][..|g|] == recorded.graph[..|g|];
    }
    assert recorded.graph[|g|] == recorded.graph[..|withOp|][|g|] == withOp[|g|];
    recorded
  }

  /** Everything after `apply` has returned `outputs`: the `CppOp`, the
      output selects, and the backward wiring. */
  function TraceApplied(
    g: Graph, f: FunctionInfo, inputs: seq<Variable>, outputs: seq<Variable>,
    valueTrace: nat -> NodeRef,
    backwardEval: (seq<Variable>, seq<Variable>) -> Option<NodeId>): (r: Outcome)
    ensures |r.graph| == |g| + 1 + |outputs| + (if AddsContextEdge(f) then 1 else 0)
    ensures r.graph[..|g|] == g
    ensures && r.graph[|g|].CppOp?
            && r.graph[|g|].op == f.self
            && |r.graph[|g|].inputs| == |inputs| + (if ConsumesContext(f) then 1 else 0)
            && (forall i :: 0 <= i < |inputs| ==> r.graph[|g|].inputs[i] == valueTrace(i))
            && (ConsumesContext(f) ==> r.graph[|g|].inputs[|inputs|] == f.eval.value)
    ensures forall i :: 0 <= i < |outputs| ==> r.graph[|g| + 1 + i] == Select(|g|, i, outputs[i].defined)
    ensures forall i :: i in r.bindings <==> 0 <= i < |outputs| && outputs[i].defined
    ensures forall i :: i in r.bindings ==> r.bindings[i] == |g| + 1 + i
    ensures AddsContextEdge(f) ==> r.graph[|g| + 1 + |outputs|] == HandleSelect(|g|, |outputs|)
    ensures r.link == if AddsContextEdge(f) then LinkFor(inputs, outputs, |g| + 1 + |outputs|, backwardEval) else None
    ensures r.backwardSubgraph == MarkedSubgraph(f, inputs, outputs)
    ensures r.result == if Throws(f) then Err(MissingSavedVariables(f.name)) else Ok(outputs)
  {
    var node := |g|;
    var recorded := RecordCall(g, f, inputs, outputs, valueTrace);
    if f.passesStateTransparently then
      Outcome(recorded.graph, recorded.bindings, None, None, Ok(outputs))
    else
      var r := WireBackward(recorded.graph, node, f, inputs, outputs, recorded.bindings, backwardEval);
      assert r.graph[..|g|] == g by {
        forall j | 0 <= j < |g| ensures r.graph[j] == g[j] {
          assert r.graph[j] == recorded.graph[j] == recorded.graph[..|g|][j];
        }
      }
      assert forall i :: 0 <= i < |outputs| ==> r.graph[|g| + 1 + i] == Select(|g|, i, outputs[i].defined);
      r
  }

  /** The call got past `apply`: the function is not traceable and its
      forward computation returned outputs instead of throwing. */
  ghost predicate Applied(f: FunctionInfo, inputs: seq<Variable>) {
    !f.isTraceable && f.apply(inputs).Ok?
  }

  /** `Function::tracedApply` on the trace graph `g`. `valueTrace(i)` is the
      trace node the tracing state holds for the input at position `i`;
      `backwardEval` is the lookup of a backward `Eval` by inputs and
      outputs. */
  function TracedApply(
    g: Graph, f: FunctionInfo, inputs: seq<Variable>,
    valueTrace: nat -> NodeRef,
    backwardEval: (seq<Variable>, seq<Variable>) -> Option<NodeId>): (r: Outcome)
    // Traceable functions are transparent: whatever `apply` returns or
    // throws, and no node of this call's own.
    ensures f.isTraceable ==> r == Outcome(g, map[], None, None, f.apply(inputs))
    // The existing graph is never altered.
    ensures |g| <= |r.graph| && r.graph[..|g|] == g
    // The CppOp comes first, before `apply` runs: one input per input, in
    // order, plus an Eval's context handle once the outputs are recorded.
    ensures !f.isTraceable ==>
      && |g| < |r.graph|
      && r.graph[|g|].CppOp?
      && r.graph[|g|].op == f.self
      && |r.graph[|g|].inputs| == |inputs| + (if Applied(f, inputs) && ConsumesContext(f) then 1 else 0)
      && (forall i :: 0 <= i < |inputs| ==> r.graph[|g|].inputs[i] == valueTrace(i))
      && (Applied(f, inputs) && ConsumesContext(f) ==> r.graph[|g|].inputs[|inputs|] == f.eval.value)
    // An exception from `apply` escapes with only the CppOp recorded.
    ensures !f.isTraceable && f.apply(inputs).Err? ==>
      r == Outcome(g + [CppOpFor(f, inputs, valueTrace)], map[], None, None, f.apply(inputs))
    // Node count: the CppOp, one select per output, the optional context select.
    ensures Applied(f, inputs) ==>
      |r.graph| == |g| + 1 + |f.apply(inputs).value| + (if AddsContextEdge(f) then 1 else 0)
    // Select i refers to output i, and is typed iff output i is defined.
    ensures Applied(f, inputs) ==>
      var outputs := f.apply(inputs).value;
      forall i :: 0 <= i < |outputs| ==> r.graph[|g| + 1 + i] == Select(|g|, i, outputs[i].defined)
    // One `setValueTrace` call per defined output position, each with the
    // select of that position.
    ensures Applied(f, inputs) ==>
      var outputs := f.apply(inputs).value;
      && (forall i :: i in r.bindings <==> 0 <= i < |outputs| && outputs[i].defined)
      && (forall i :: i in r.bindings ==> r.bindings[i] == |g| + 1 + i)
    // The context select follows the output selects, at index `|outputs|`.
    ensures Applied(f, inputs) && AddsContextEdge(f) ==>
      var outputs := f.apply(inputs).value;
      && r.graph[|g| + 1 + |outputs|] == HandleSelect(|g|, |outputs|)
      && r.link == LinkFor(inputs, outputs, |g| + 1 + |outputs|, backwardEval)
    ensures !(Applied(f, inputs) && AddsContextEdge(f)) ==> r.link == None
    // A backward subgraph is wrapped exactly when the saved variables are
    // required and present.
    ensures r.backwardSubgraph ==
      if Applied(f, inputs) then MarkedSubgraph(f, inputs, f.apply(inputs).value) else None
    // The saved_variables() error is raised exactly when `apply` returned and
    // saved variables are required but missing; otherwise the call returns
    // or throws what `apply` did.
    ensures r.result ==
      if Applied(f, inputs) && Throws(f) then Err(MissingSavedVariables(f.name))
      else f.apply(inputs)
  {
    if f.isTraceable then Outcome(g, map[], None, None, f.apply(inputs))
    else
      match f.apply(inputs)
      case Err(message) => Outcome(g + [CppOpFor(f, inputs, valueTrace)], map[], None, None, Err(message))
      case Ok(outputs) => TraceApplied(g, f, inputs, outputs, valueTrace, backwardEval)
  }

  /** Number of `Select` records of node `of`. */
  ghost function CountSelects(nodes: seq<TraceNode>, of: NodeRef): nat {
    if |nodes| == 0 then 0
    else (if nodes[0].Select? && nodes[0].of == of then 1 else 0) + CountSelects(nodes[1..], of)
  }

  /** Number of `Select` records of node `of` whose type was inferred. */
  ghost function CountTypedSelects(nodes: seq<TraceNode>, of: NodeRef): nat {
    if |nodes| == 0 then 0
    else
      var here := if nodes[0].Select? && nodes[0].of == of && nodes[0].typed then 1 else 0;
      here + CountTypedSelects(nodes[1..], of)
  }

  /** Number of `HandleSelect` records of node `of`. */
  ghost function CountHandleSelects(nodes: seq<TraceNode>, of: NodeRef): nat {
    if |nodes| == 0 then 0
    else (if nodes[0].HandleSelect? && nodes[0].of == of then 1 else 0) + CountHandleSelects(nodes[1..], of)
  }

  /** Number of defined variables. */
  ghost function CountDefined(vs: seq<Variable>): nat {
    if |vs| == 0 then 0 else (if vs[0].defined then 1 else 0) + CountDefined(vs[1..])
  }

  /** A run of output selects of `of` has one select per output and one typed
      select per defined output. */
  lemma {:induction false} SelectRunCounts(nodes: seq<TraceNode>, of: NodeRef, outputs: seq<Variable>)
    requires |nodes| == |outputs|
    requires forall i :: 0 <= i < |nodes| ==> nodes[i].Select? && nodes[i].of == of && nodes[i].typed == outputs[i].defined
    ensures CountSelects(nodes, of) == |outputs|
    ensures CountTypedSelects(nodes, of) == CountDefined(outputs)
    ensures CountHandleSelects(nodes, of) == 0
  {
    if |nodes| > 0 {
      SelectRunCounts(nodes[1..], of, outputs[1..]);
    }
  }

  /** Each count over a concatenation is the sum of the counts over its
      parts. */
  lemma {:induction false} CountsAppend(a: seq<TraceNode>, b: seq<TraceNode>, of: NodeRef)
    ensures CountSelects(a + b, of) == CountSelects(a, of) + CountSelects(b, of)
    ensures CountTypedSelects(a + b, of) == CountTypedSelects(a, of) + CountTypedSelects(b, of)
    ensures CountHandleSelects(a + b, of) == CountHandleSelects(a, of) + CountHandleSelects(b, of)
  {
    if |a| > 0 {
      assert (a + b)[0] == a[0];
      assert (a + b)[1..] == a[1..] + b;
      CountsAppend(a[1..], b, of);
    } else {
      assert a + b == b;
    }
  }

  /** Counts over what a non-traceable call appends behind its `CppOp`: a run
      of output selects, then possibly the context select. */
  lemma AppendedCounts(graph: Graph, node: NodeRef, outputs: seq<Variable>, withContext: bool)
    requires |graph| == node + 1 + |outputs| + (if withContext then 1 else 0)
    requires forall i :: 0 <= i < |outputs| ==> graph[node + 1 + i] == Select(node, i, outputs[i].defined)
    requires withContext ==> graph[node + 1 + |outputs|] == HandleSelect(node, |outputs|)
    ensures CountSelects(graph[node + 1..], node) == |outputs|
    ensures CountTypedSelects(graph[node + 1..], node) == CountDefined(outputs)
    ensures CountHandleSelects(graph[node + 1..], node) == (if withContext then 1 else 0)
  {
    var n := |outputs|;
    var appended := graph[node + 1..];
    var run := appended[..n];
    var rest := appended[n..];
    assert appended == run + rest;
    forall i | 0 <= i < n
      ensures run[i].Select? && run[i].of == node && run[i].typed == outputs[i].defined
    {
      assert run[i] == graph[node + 1 + i] == Select(node, i, outputs[i].defined);
    }
    SelectRunCounts(run, node, outputs);
    CountsAppend(run, rest, node);
    if withContext {
      assert rest == [HandleSelect(node, n)];
      assert rest[1..] == [];
    } else {
      assert rest == [];
    }
  }

  /** Arity preservation: behind the `CppOp`, a call whose `apply` returned
      records exactly one select per output whether or not it is defined,
      infers a type for exactly the defined ones, and adds at most the one
      context select. */
  lemma {:induction false} OutputArity(
    g: Graph, f: FunctionInfo, inputs: seq<Variable>,
    valueTrace: nat -> NodeRef,
    backwardEval: (seq<Variable>, seq<Variable>) -> Option<NodeId>)
    requires Applied(f, inputs)
    ensures var r := TracedApply(g, f, inputs, valueTrace, backwardEval);
            var outputs := f.apply(inputs).value;
            var appended := r.graph[|g| + 1..];
            && CountSelects(appended, |g|) == |outputs|
            && CountTypedSelects(appended, |g|) == CountDefined(outputs)
            && CountHandleSelects(appended, |g|) == (if AddsContextEdge(f) then 1 else 0)
  {
    var r := TracedApply(g, f, inputs, valueTrace, backwardEval);
    var outputs := f.apply(inputs).value;
    assert |r.graph| == |g| + 1 + |outputs| + (if AddsContextEdge(f) then 1 else 0);
    assert forall i :: 0 <= i < |outputs| ==> r.graph[|g| + 1 + i] == Select(|g|, i, outputs[i].defined);
    assert AddsContextEdge(f) ==> r.graph[|g| + 1 + |outputs|] == HandleSelect(|g|, |outputs|);
    AppendedCounts(r.graph, |g|, outputs, AddsContextEdge(f));
  }

  /** A function that passes state transparently never raises the
      saved_variables() error, never wraps a backward subgraph and never gets
      a context edge, whatever its other capabilities. */
  lemma {:induction false} TransparentCallsAddNoContext(
    g: Graph, f: FunctionInfo, inputs: seq<Variable>,
    valueTrace: nat -> NodeRef,
    backwardEval: (seq<Variable>, seq<Variable>) -> Option<NodeId>)
    requires f.passesStateTransparently
    ensures var r := TracedApply(g, f, inputs, valueTrace, backwardEval);
            && r.result == f.apply(inputs)
            && r.backwardSubgraph == None
            && r.link == None
            && CountHandleSelects(r.graph[|g|..], |g|) == 0
  {
    var r := TracedApply(g, f, inputs, valueTrace, backwardEval);
    if Applied(f, inputs) {
      OutputArity(g, f, inputs, valueTrace, backwardEval);
      assert r.graph[|g|..] == [r.graph[|g|]] + r.graph[|g| + 1..];
      CountsAppend([r.graph[|g|]], r.graph[|g| + 1..], |g|);
    } else if !f.isTraceable {
      assert r.graph[|g|..] == [r.graph[|g|]];
      assert r.graph[|g|..][1..] == [];
    }
  }

  /** Once `apply` has returned, the saved_variables() error is raised
      exactly when saved variables are required but missing, and only after
      every output select was recorded: the failed call leaves the `CppOp`
      and all output selects in the graph, and nothing else. */
  lemma {:induction false} ThrowsAfterOutputsRecorded(
    g: Graph, f: FunctionInfo, inputs: seq<Variable>,
    valueTrace: nat -> NodeRef,
    backwardEval: (seq<Variable>, seq<Variable>) -> Option<NodeId>)
    requires Applied(f, inputs)
    ensures TracedApply(g, f, inputs, valueTrace, backwardEval).result.Err? <==> Throws(f)
    ensures Throws(f) ==>
            var r := TracedApply(g, f, inputs, valueTrace, backwardEval);
            && |r.graph| == |g| + 1 + |f.apply(inputs).value|
            && CountSelects(r.graph[|g| + 1..], |g|) == |f.apply(inputs).value|
            && r.link == None && r.backwardSubgraph == None
  {
    OutputArity(g, f, inputs, valueTrace, backwardEval);
  }

  /** A non-transparent, non-`Eval` function outside any `Eval` subgraph
      that implements no `saved_variables()` fails, naming itself, once its
      `apply` has returned. */
  lemma {:induction false} MissingSavedVariablesScenario(
    g: Graph, f: FunctionInfo, inputs: seq<Variable>,
    valueTrace: nat -> NodeRef,
    backwardEval: (seq<Variable>, seq<Variable>) -> Option<NodeId>)
    requires !f.isTraceable && !f.passesStateTransparently && f.apply(inputs).Ok?
    requires f.eval.None? && !f.inEvalSubgraph && f.savedVariables.None?
    ensures TracedApply(g, f, inputs, valueTrace, backwardEval).result
         == Err("saved_variables() needed but not implemented in " + f.name)
  {
  }
}
