# Autograd `Function` flags and trace bookkeeping

A Dafny model of two parts of PyTorch's `torch/csrc/autograd/function.cpp`:

- **Flag derivation.** `makeFlags` folds a function's input variables into
  its `FunctionFlags`: `is_executable`, `is_volatile`, and one
  `next_functions` routing slot per input. The three `Function::flags`
  overloads delegate to it. An undefined input contributes nothing. A defined
  input ORs its `requires_grad` and `is_volatile` into the flags. Its slot
  gets `(grad_fn, output_nr)` if it is a non-leaf and
  `(grad_accumulator, 0)` if it is a leaf. Volatility then switches
  execution off.
- **Trace bookkeeping.** `Function::tracedApply` records a C++ autograd
  function in the JIT trace graph: one `CppOp` node with one input per
  input, then one `Select` per output, then the backward wiring. That wiring
  can throw the "saved_variables() needed but not implemented" error.
  `setUpContextEdge` appends the handle-typed context select at index
  `num_outputs`.

Files:

- `wrappers.dfy`: `Option` and `Result`.
- `variable.dfy`: the variable attributes the flags read.
- `flags.dfy`: `makeFlags`, the overloads and their properties.
- `tracing.dfy`: the trace graph, `tracedApply`, `setUpContextEdge` and
  their properties.

The trace graph is a `seq` of node records. A node is referred to by its
position in that sequence. `tracedApply` is a pure function from the graph
to an `Outcome`, which holds:

- the new graph;
- the `setValueTrace` calls made, one per defined output position, each
  naming the select it was given;
- the request to mark a backward subgraph (`nontraceableBackwardSubgraph`);
- the context link (`backward_eval->forward_ctx_select = ctx_select`);
- the outputs, or the thrown error.

The function's forward computation `apply` is an opaque function. It returns
either the outputs or the exception it throws. The tracer's `getValueTrace`
is given per input position. The lookup `Eval::getBackwardEval` is an opaque
function too. Both are parameters.

Points where the code is easy to misread:

- Only *defined* inputs count towards `is_executable` and `is_volatile`.
- The `in_eval_subgraph` test reads the function's own tracing state (line
  103), not the ambient tracing state. It is a field of `FunctionInfo`.
- An `Eval` adds its `forward_ctx_select` as an extra input to the `CppOp`
  node that is already in the graph (line 99). This happens before the
  saved-variables check, so a failing `Eval` call leaves that extra input in
  place. The model states this.
- The "not traceable" marker is a call into the tracer, not a node this
  code appends. The model returns it as a request and does not append a
  node for it.
- An exception from `apply` (line 80) escapes after the `CppOp` has been
  appended (line 76) and before any select. The saved-variables error
  (line 107) is only one of the ways a call can fail.

## Model

| member | source | states |
|---|---|---|
| Flags.MakeFlags | torch/csrc/autograd/function.cpp:13-45 | The result has exactly one slot per input. `is_volatile` holds iff some defined input is volatile. `is_executable` holds iff some defined input requires grad and no defined input is volatile. Slot i is empty for an undefined input, `(grad_fn, output_nr)` for a defined non-leaf, and `(grad_accumulator, 0)` for a defined leaf. |
| Flags.Scan | torch/csrc/autograd/function.cpp:20-40 | Running the loop from position i only adds the contributions of defined inputs at or after i. Slots before i and slots of undefined inputs keep their values. Each defined input's slot is set to its routing edge. |
| Flags.FlagsSpecDetermines | torch/csrc/autograd/function.cpp:13-45 | Any two `FunctionFlags` that satisfy the closed form for the same inputs are equal. |
| Flags.UndefinedInputIsInert | torch/csrc/autograd/function.cpp:22-39 | Inserting an undefined input anywhere leaves both flags unchanged. It adds only an empty slot at its own position. The other inputs' slots are unchanged. |
| Flags.FlagsOfVariableList | torch/csrc/autograd/function.cpp:47 | The `variable_list` overload satisfies the closed form of its inputs. |
| Flags.FlagsOfInitializerList | torch/csrc/autograd/function.cpp:49 | The initializer-list overload satisfies the closed form of the listed inputs. |
| Flags.FlagsOfTensorList | torch/csrc/autograd/function.cpp:51-54 | The `TensorList` overload satisfies the closed form of the elements the view copies out. |
| Flags.OverloadsAgree | torch/csrc/autograd/function.cpp:47-54 | All three overloads return identical flags for the same element sequence. |
| Flags.TwoLeavesScenario | torch/csrc/autograd/function.cpp:13-45 | Take two defined leaves, only the first requiring grad. The flags are executable and not volatile, and the slots are `[(accA, 0), (accB, 0)]`. |
| Flags.VolatileInputScenario | torch/csrc/autograd/function.cpp:24-42 | Take a defined input that requires grad next to a defined volatile input. The result is volatile and not executable. |
| Tracing.CppOpFor | torch/csrc/autograd/function.cpp:70-76 | The `CppOp` records the function itself. It has one input per input, in input order. Input i is the value trace of the input at position i. |
| Tracing.RecordOutputs | torch/csrc/autograd/function.cpp:83-94 | Exactly one `Select` per output is appended, in order, and select j refers to output j. A select is typed iff its output is defined. A `setValueTrace` call is recorded for exactly the defined output positions, each with the select of that position. The existing graph is unchanged. |
| Tracing.SetUpContextEdge | torch/csrc/autograd/function.cpp:120-127 | Exactly one `HandleSelect` of the node is appended, at output index `ctx_output_nr`. A link to it is made iff the backward-`Eval` lookup finds one. |
| Tracing.WireBackward | torch/csrc/autograd/function.cpp:96-116 | An `Eval` gets its context handle added as the last input of its `CppOp`, and every other node stays the same. The call throws the named error iff it is outside an `Eval` subgraph and has no saved variables. The backward subgraph, built from inputs followed by saved variables, is marked iff the saved variables are required and present. The context select is appended iff the call does not throw and either it is outside an `Eval` subgraph or it is an `Eval`. |
| Tracing.RecordCall | torch/csrc/autograd/function.cpp:70-94 | Once `apply` has returned, exactly `1 + num_outputs` nodes are appended behind the preserved graph: the `CppOp` first, then select i of output i. A select is typed, and a `setValueTrace` call with it is recorded, iff its output is defined. |
| Tracing.TraceApplied | torch/csrc/autograd/function.cpp:70-116 | Once `apply` has returned: the existing graph is a preserved prefix. Exactly `1 + num_outputs` nodes are appended, plus 1 when the context select is added. The `CppOp` comes first, with one input edge per input in order. Select i refers to output i. It is typed, and a `setValueTrace` call with it is recorded, iff that output is defined. The saved-variables error, the backward-subgraph marker and the handle select at index `num_outputs` happen exactly under the conditions the code tests. |
| Tracing.TracedApply | torch/csrc/autograd/function.cpp:61-118 | A traceable function returns or throws what `apply` does and appends no node of its own. Otherwise the `CppOp` is appended first. If `apply` throws, the exception escapes and the `CppOp` is the only node added. If `apply` returns, the call behaves as `TraceApplied` states. The existing graph is always a preserved prefix. |
| Tracing.OutputArity | torch/csrc/autograd/function.cpp:84-94 | Once `apply` has returned, behind the `CppOp`, the number of output selects equals the number of outputs, however many are undefined. The number of typed selects equals the number of defined outputs. There is one context select or none. |
| Tracing.TransparentCallsAddNoContext | torch/csrc/autograd/function.cpp:96-116 | A function that passes state transparently returns or throws exactly what `apply` does. It never raises the saved-variables error, never marks a backward subgraph, gets no context link, and adds no handle select. |
| Tracing.ThrowsAfterOutputsRecorded | torch/csrc/autograd/function.cpp:84-107 | Once `apply` has returned, the saved_variables() error is raised exactly when the function is not state-transparent, is outside an `Eval` subgraph, and has no saved variables. In that case the call leaves exactly the `CppOp` and all output selects behind, and no context link or backward subgraph. |
| Tracing.MissingSavedVariablesScenario | torch/csrc/autograd/function.cpp:103-107 | A non-transparent, non-`Eval` function outside an `Eval` subgraph, without saved variables and whose `apply` returned, fails with the message naming it. |

## Left out

- Tracing.TracedApply: `apply` is taken never to append trace nodes itself. So the node positions and counts, and "no node of its own" on the traceable path, count only the nodes `tracedApply` appends. In the source, the lock is released around `apply` (lines 79-81) so that `apply` can re-enter the tracer and append nodes to the same graph. For a traceable function (line 63) that is how its nodes get recorded. The nodes this call appends are still the ones stated, in the stated order.
- Tracing.RecordOutputs: the recorded `setValueTrace` calls are keyed by output position, not by variable object. When `apply` returns the same variable at several output positions, line 92 overwrites its trace each time, so in the source it ends up traced to the last of its selects only. The model records one call per position and does not show which one wins.
- The tracing-state lock itself (lines 67-68, 79-81) is not modelled. `apply` is an opaque call that returns its outputs or throws.
- `getValueTrace` can append a constant node for an untraced input (the tracer is not part of this model). The model treats it as an opaque lookup with no effect on the graph. So "one `CppOp` appended" counts only the nodes this file appends.
- `createCppOp`, `inferTypeFrom`, `setType` and the JIT node and type system are foreign calls into the IR. A node is a record. A select only records *whether* its type was inferred. The handle type is implied by the `HandleSelect` constructor.
- `nontraceableBackwardSubgraph` is modelled as the returned request, not as what it does to the graph.
- `Function::name()` (line 56) derives the name from RTTI. The model takes the name as a given string and uses it only in the error message.
- `saved_var.unpack` and the lazy creation of `grad_accumulator` live in `variable.h`, which is not part of this model. Saved variables are given already unpacked, and accumulators are given ids. So the model claims no idempotence of accumulator creation.
- `Eval::getBackwardEval` is an opaque lookup. Its `forward_ctx_select` assignment is returned as a `ContextLink` rather than performed. So the model does not state what repeated calls do to one `Eval` object.
- An `Eval` whose `forward_ctx_select` is still null is not distinguished. The handle input is taken to be a node.
- `num_inputs` and `num_outputs` are C++ `int`s. The model does not cover lists longer than `INT_MAX`.
- The numeric forward and backward math inside `apply`.
