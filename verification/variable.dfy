/** The autograd variable as seen by `makeFlags`: only the attributes the flag
    computation reads (torch/csrc/autograd/variable.h is not part of this
    model). */
module Variables {
  import opened Wrappers

  /** Identity of a backward `Function` (a `grad_fn`, a gradient accumulator,
      an `Eval`). */
  type NodeId = nat

  /** A `(function, input_nr)` pair: where a gradient flowing into a slot is
      routed next. */
  type Edge = (NodeId, nat)

  /** A variable. `gradFn` is `Some((fn, output_nr))` for a non-leaf and `None`
      for a leaf; `accumulator` is the gradient-accumulation function the leaf
      hands out when asked. */
  datatype Variable = Variable(
    defined: bool,
    requiresGrad: bool,
    volatile: bool,
    gradFn: Option<Edge>,
    accumulator: NodeId)
  {
    predicate IsLeaf() {
      gradFn.None?
    }
  }

  /** The edge a defined variable contributes to `next_functions`. */
  function NextEdge(v: Variable): Edge {
    match v.gradFn
    case Some(e) => e
    case None => (v.accumulator, 0)
  }
}
