/** Flag derivation for an autograd `Function`: `makeFlags` and the three
    `Function::flags` overloads that delegate to it. */
module Flags {
  import opened Wrappers
  import opened Variables

  /** `FunctionFlags`: whether the function must run in the backward pass,
      whether it is volatile, and one routing slot per input. */
  datatype FunctionFlags = FunctionFlags(
    isExecutable: bool,
    isVolatile: bool,
    nextFunctions: seq<Option<Edge>>)

  /** Some defined input requires a gradient. */
  ghost predicate AnyRequiresGrad(inputs: seq<Variable>) {
    exists i :: 0 <= i < |inputs| && inputs[i].defined && inputs[i].requiresGrad
  }

  /** Some defined input is volatile. */
  ghost predicate AnyVolatile(inputs: seq<Variable>) {
    exists i :: 0 <= i < |inputs| && inputs[i].defined && inputs[i].volatile
  }

  /** What slot `slot` of `next_functions` must hold for input `v`: nothing
      for an undefined input, the producer edge for a non-leaf, the
      accumulator with input number 0 for a leaf. */
  ghost predicate SlotFor(v: Variable, slot: Option<Edge>) {
    if !v.defined then slot == None
    else if v.IsLeaf() then slot == Some((v.accumulator, 0))
    else slot == Some(v.gradFn.value)
  }

  /** The closed form of the flags of a function with the given inputs. */
  ghost predicate FlagsSpec(inputs: seq<Variable>, f: FunctionFlags) {
    && |f.nextFunctions| == |inputs|
    && (f.isVolatile <==> AnyVolatile(inputs))
    && (f.isExecutable <==> AnyRequiresGrad(inputs) && !AnyVolatile(inputs))
    && forall i :: 0 <= i < |inputs| ==> SlotFor(inputs[i], f.nextFunctions[i])
  }

  /** One iteration of the loop in `makeFlags` on input `v` at position `i`:
      an undefined input leaves the accumulator untouched. */
  function Step(acc: FunctionFlags, v: Variable, i: nat): FunctionFlags
    requires i < |acc.nextFunctions|
  {
    if v.defined then
      FunctionFlags(
        acc.isExecutable || v.requiresGrad,
        acc.isVolatile || v.volatile,
        acc.nextFunctions[i := Some(NextEdge(v))])
    else acc
  }

  /** The loop of `makeFlags` from position `i` on: the flags only ever gain
      the contributions of defined inputs at or after `i`, slots before `i`
      are left alone and slots of undefined inputs keep what they held. */
  function Scan(inputs: seq<Variable>, i: nat, acc: FunctionFlags): (r: FunctionFlags)
    requires i <= |inputs| == |acc.nextFunctions|
    ensures |r.nextFunctions| == |inputs|
    ensures r.isExecutable <==>
      acc.isExecutable || exists j :: i <= j < |inputs| && inputs[j].defined && inputs[j].requiresGrad
    ensures r.isVolatile <==>
      acc.isVolatile || exists j :: i <= j < |inputs| && inputs[j].defined && inputs[j].volatile
    ensures forall j :: 0 <= j < i ==> r.nextFunctions[j] == acc.nextFunctions[j]
    ensures forall j :: i <= j < |inputs| && !inputs[j].defined ==> r.nextFunctions[j] == acc.nextFunctions[j]
    ensures forall j :: i <= j < |inputs| && inputs[j].defined ==> r.nextFunctions[j] == Some(NextEdge(inputs[j]))
    decreases |inputs| - i
  {
    if i == |inputs| then acc
    else Scan(inputs, i + 1, Step(acc, inputs[i], i))
  }

  /** `makeFlags`: every slot starts empty, the loop folds the inputs in, and
      volatility finally switches execution off. */
  function MakeFlags(inputs: seq<Variable>): (f: FunctionFlags)
    ensures FlagsSpec(inputs, f)
  {
    var scanned := Scan(inputs, 0, FunctionFlags(false, false, seq(|inputs|, _ => None)));
    scanned.(isExecutable := scanned.isExecutable && !scanned.isVolatile)
  }

  /** The closed form pins the flags down completely: there is only one
      `FunctionFlags` a list of inputs can have. */
  lemma FlagsSpecDetermines(inputs: seq<Variable>, f: FunctionFlags, g: FunctionFlags)
    requires FlagsSpec(inputs, f) && FlagsSpec(inputs, g)
    ensures f == g
  {
  }

  /** Inserting an undefined input anywhere changes neither flag and only adds
      an empty slot at its own position. */
  lemma UndefinedInputIsInert(before: seq<Variable>, hole: Variable, after: seq<Variable>)
    requires !hole.defined
    ensures MakeFlags(before + [hole] + after).isExecutable == MakeFlags(before + after).isExecutable
    ensures MakeFlags(before + [hole] + after).isVolatile == MakeFlags(before + after).isVolatile
    ensures MakeFlags(before + [hole] + after).nextFunctions
         == MakeFlags(before).nextFunctions + [None] + MakeFlags(after).nextFunctions
  {
    var with := before + [hole] + after;
    var without := before + after;
    var n := |before|;
    assert AnyVolatile(with) <==> AnyVolatile(without) by {
      if AnyVolatile(with) {
        var i :| 0 <= i < |with| && with[i].defined && with[i].volatile;
        if i < n { assert without[i] == with[i]; } else { assert without[i - 1] == with[i]; }
      }
      if AnyVolatile(without) {
        var i :| 0 <= i < |without| && without[i].defined && without[i].volatile;
        if i < n { assert with[i] == without[i]; } else { assert with[i + 1] == without[i]; }
      }
    }
    assert AnyRequiresGrad(with) <==> AnyRequiresGrad(without) by {
      if AnyRequiresGrad(with) {
        var i :| 0 <= i < |with| && with[i].defined && with[i].requiresGrad;
        if i < n { assert without[i] == with[i]; } else { assert without[i - 1] == with[i]; }
      }
      if AnyRequiresGrad(without) {
        var i :| 0 <= i < |without| && without[i].defined && without[i].requiresGrad;
        if i < n { assert with[i] == without[i]; } else { assert with[i + 1] == without[i]; }
      }
    }
    var slots := MakeFlags(with).nextFunctions;
    var expected := MakeFlags(before).nextFunctions + [None] + MakeFlags(after).nextFunctions;
    assert |slots| == |expected|;
    forall i | 0 <= i < |with|
      ensures slots[i] == expected[i]
    {
      assert SlotFor(with[i], slots[i]);
      if i < n {
        assert SlotFor(before[i], MakeFlags(before).nextFunctions[i]);
      } else if i > n {
        assert SlotFor(after[i - n - 1], MakeFlags(after).nextFunctions[i - n - 1]);
      }
    }
  }

  /** `Function::flags(const variable_list&)`. */
  function FlagsOfVariableList(inputs: seq<Variable>): (f: FunctionFlags)
    ensures FlagsSpec(inputs, f)
  {
    MakeFlags(inputs)
  }

  /** `Function::flags(std::initializer_list<Variable>)`: the list literal's
      elements, in order. */
  function FlagsOfInitializerList(inputs: seq<Variable>): (f: FunctionFlags)
    ensures FlagsSpec(inputs, f)
  {
    MakeFlags(inputs)
  }

  /** An `at::TensorList`: a non-owning view of `size` consecutive elements
      of some storage, starting at `start`. */
  datatype TensorList = TensorList(storage: seq<Variable>, start: nat, size: nat) {
    predicate Valid() {
      start + size <= |storage|
    }

    /** The vector `variable_list(begin(), end())` copied out of the view. */
    function Elements(): (elems: seq<Variable>)
      requires Valid()
      ensures |elems| == size
      ensures forall i :: 0 <= i < size ==> elems[i] == storage[start + i]
    {
      storage[start..start + size]
    }
  }

  /** `Function::flags(at::TensorList)`: flags of the copied-out vector. */
  function FlagsOfTensorList(inputs: TensorList): (f: FunctionFlags)
    requires inputs.Valid()
    ensures FlagsSpec(inputs.Elements(), f)
  {
    MakeFlags(inputs.Elements())
  }

  /** The three overloads agree on the same element sequence. */
  lemma OverloadsAgree(view: TensorList)
    requires view.Valid()
    ensures FlagsOfVariableList(view.Elements()) == FlagsOfInitializerList(view.Elements())
    ensures FlagsOfInitializerList(view.Elements()) == FlagsOfTensorList(view)
  {
  }

  /** Two leaves, only the first requiring a gradient: executable, not
      volatile, both slots routed to the leaves' accumulators. */
  lemma TwoLeavesScenario(accA: NodeId, accB: NodeId)
    ensures var a := Variable(true, true, false, None, accA);
            var b := Variable(true, false, false, None, accB);
            MakeFlags([a, b]) == FunctionFlags(true, false, [Some((accA, 0)), Some((accB, 0))])
  {
  }

  /** One defined volatile input switches execution off whatever the other
      inputs require. */
  lemma VolatileInputScenario(x: Variable, y: Variable)
    requires x.defined && x.requiresGrad
    requires y.defined && y.volatile
    ensures !MakeFlags([x, y]).isExecutable
    ensures MakeFlags([x, y]).isVolatile
  {
    var inputs := [x, y];
    assert inputs[1] == y;
  }
}
