/** The reasoning loop of `TMAC.forward`: two storages of `S + 1` slots
    (control and memory; slot 0 is the sentinel, slot `i + 1` belongs to step
    `i`), visited by the steps in strictly decreasing index order. Each step
    gathers its parents, runs its four units and adds its outputs into its
    own slot; the root's memory output is the result.

    Vectors are a type parameter `V`. Everything numeric is a function in
    `Kernels`, indexed by the instance that runs it. Every access to a slot
    is recorded in the state's log, so the loop's dataflow can be stated. */
module Driver {
  import opened Common
  import opened Units
  import opened Tables
  import opened Network

  /** The numeric work of the network, left uninterpreted. `zero` and `add`
      are the storage's initial value and its accumulation; `questionDropout`
      and `questionTransform` produce the initial control and the question
      every Input unit reads; `input`, `fuse`/`attend`, `read` and `write` are
      the four units' arithmetic, given first the key of the instance that
      runs it; `classify` is the classifier head. The
      question context, its mask and the image features are fixed for a
      forward pass and live inside these functions. */
  datatype Kernels<!V> = Kernels(zero: V,
                                add: (V, V) -> V,
                                questionDropout: V -> V,
                                questionTransform: V -> V,
                                input: InstanceKey -> V -> V,
                                fuse: InstanceKey -> (seq<V>, V) -> V,
                                attend: InstanceKey -> V -> V,
                                read: InstanceKey -> (seq<V>, V) -> V,
                                write: InstanceKey -> (seq<V>, V) -> V,
                                classify: (V, V) -> V)

  /** One access to a storage slot. A write is the addition of a unit's
      output into the slot (`slot = slot + output`), which reads the slot's
      old value as part of the same access; the other reads are gathers of
      parent slots and the hand-over of the step's new control to its Read
      unit. */
  datatype Access =
    | ReadControl(slot: nat)
    | WriteControl(slot: nat)
    | ReadMemory(slot: nat)
    | WriteMemory(slot: nat)
  {
    predicate IsWrite() {
      WriteControl? || WriteMemory?
    }
  }

  /** The two storages, the root's memory once it is computed, and every
      slot access so far, oldest first. */
  datatype State<V> = State(control: seq<V>, memory: seq<V>, final: Option<V>, log: seq<Access>)

  /** Storage at the start of a pass: `S + 1` zero slots, with slot 0 holding
      the initial control and the initial memory. */
  function InitialState<V>(k: Kernels<V>, numSteps: nat, initControl: V, initMemory: V): (st: State<V>)
    ensures |st.control| == |st.memory| == numSteps + 1
    ensures st.control[0] == initControl && st.memory[0] == initMemory
    ensures forall s :: 1 <= s <= numSteps ==> st.control[s] == k.zero && st.memory[s] == k.zero
    ensures st.final == None && st.log == []
  {
    State([initControl] + seq(numSteps, _ => k.zero), [initMemory] + seq(numSteps, _ => k.zero), None, [])
  }

  /** The slots a step gathers its parents from, in a storage of `size`
      slots: the sentinel slot 0 for a leaf, slot `child + 1` for each child
      in order otherwise (with Python's negative indexing). */
  function ParentSlots(size: nat, children: seq<int>): (r: Result<seq<nat>>)
    requires size > 0
    ensures r.Ok? <==> forall i :: 0 <= i < |children| ==> InRange(size, children[i] + 1)
    ensures r.Ok? ==> |r.value| == Arity(|children|)
    ensures r.Ok? ==> forall i :: 0 <= i < |r.value| ==> r.value[i] < size
    ensures |children| == 0 ==> r == Ok([0])
    ensures r.Ok? ==> forall i :: 0 <= i < |children| && children[i] >= -1 ==> r.value[i] == children[i] + 1
    ensures r.Ok? ==> forall i :: 0 <= i < |children| && children[i] < -1 ==> r.value[i] == children[i] + 1 + size
  {
    if |children| == 0 then Ok([0]) else ResolveAll(size, Succ(children))
  }

  /** WriteUnit's own gathering (an empty index list read as `[-1]`) reaches
      exactly the slots the loop gathers for the Read unit. */
  lemma WriteGatherAgrees(size: nat, children: seq<int>)
    requires size > 0
    ensures ResolveAll(size, Succ(WriteIndices(children))) == ParentSlots(size, children)
  {
    if |children| == 0 {
      assert Succ(WriteIndices(children)) == [0];
      var r := ResolveAll(size, [0]);
      assert r.Ok? && |r.value| == 1 && Ok(r.value[0]) == ResolveIndex(size, 0);
      assert r.value == [0];
    }
  }

  /** Reads of the control slots `slots`, in order. */
  function ControlReads(slots: seq<nat>): seq<Access> {
    if |slots| == 0 then [] else [ReadControl(slots[0])] + ControlReads(slots[1..])
  }

  /** Reads of the memory slots `slots`, in order. */
  function MemoryReads(slots: seq<nat>): seq<Access> {
    if |slots| == 0 then [] else [ReadMemory(slots[0])] + MemoryReads(slots[1..])
  }

  /** The accesses of step `nidx`, in program order: the parent controls,
      the write of the step's control, the parent memories, the read of the
      control just written (handed to the Read unit), the Write unit's own
      gathering of parent memories, and the write of the step's memory
      unless the step is the root. */
  function StepLog(nidx: nat, parentSlots: seq<nat>, writeSlots: seq<nat>): seq<Access> {
    ControlReads(parentSlots) + [WriteControl(nidx + 1)]
    + (MemoryReads(parentSlots) + [ReadControl(nidx + 1)] + MemoryReads(writeSlots))
    + (if nidx == 0 then [] else [WriteMemory(nidx + 1)])
  }

  /** Both storages hold `size` slots. */
  predicate Shaped<V>(st: State<V>, size: nat) {
    |st.control| == size && |st.memory| == size
  }

  /** What step `nidx` may change, going from `st` to `st'`: the sizes stay,
      only control slot `nidx + 1` and (unless the step is the root) memory
      slot `nidx + 1` change, the final result is assigned by the root and
      by nothing else, and the log only grows. */
  ghost predicate StepFrame<V>(st: State<V>, nidx: nat, st': State<V>) {
    && |st'.control| == |st.control| && |st'.memory| == |st.memory|
    && (forall s :: 0 <= s < |st.control| && s != nidx + 1 ==> st'.control[s] == st.control[s])
    && (forall s :: 0 <= s < |st.memory| && (s != nidx + 1 || nidx == 0) ==> st'.memory[s] == st.memory[s])
    && (nidx == 0 ==> st'.final.Some?)
    && (nidx != 0 ==> st'.final == st.final)
    && st.log <= st'.log
  }

  /** One iteration of the loop of `TMAC.forward`, for step `nidx`; `q` is
      the transformed question every Input unit reads. The dispatch and the
      gathering of parent slots happen here, the unit calls in `RunUnits`.
      Both storages have `S + 1` slots, so the memory gathering resolves the
      child indices to the same slots as the control gathering. Once the
      lookup and the gathering succeed, the step is the run of its units. */
  function Step<V>(m: TMAC, k: Kernels<V>, q: V, st: State<V>, nidx: nat): (r: Result<State<V>>)
    requires nidx < |m.children|
    requires Shaped(st, |m.children| + 1)
    ensures r.Ok? ==> StepFrame(st, nidx, r.value)
    ensures SelectInstances(m, nidx).Ok? && ParentSlots(|m.children| + 1, m.children[nidx]).Ok? ==>
              r == RunUnits(m.moduleDim, k, q, st, nidx, m.children[nidx], SelectInstances(m, nidx).value,
                            ParentSlots(|m.children| + 1, m.children[nidx]).value)
  {
    match SelectInstances(m, nidx)
    case Err(e) => Err(e)
    case Ok(units) =>
      match ParentSlots(|m.children| + 1, m.children[nidx])
      case Err(e) => Err(e)
      case Ok(slots) => RunUnits(m.moduleDim, k, q, st, nidx, m.children[nidx], units, slots)
  }

  /** The units of step `nidx` in program order: Input, Control (its output
      added into control slot `nidx + 1`), Read (handed that slot), Write
      (its output added into memory slot `nidx + 1`, or kept as the final
      result when the step is the root). */
  function RunUnits<V>(dim: nat, k: Kernels<V>, q: V, st: State<V>, nidx: nat, children: seq<int>,
                       units: Instances, slots: seq<nat>): (r: Result<State<V>>)
    requires nidx + 1 < |st.control| == |st.memory|
    requires forall i :: 0 <= i < |slots| ==> slots[i] < |st.control|
    ensures r.Ok? ==> StepFrame(st, nidx, r.value)
  {
    var question := k.input(units.inputKey)(q);
    var controlI :- ControlForward(units.control, dim, Gather(st.control, slots), question,
                                   k.fuse(units.controlKey), k.attend(units.controlKey));
    var control := st.control[nidx + 1 := k.add(st.control[nidx + 1], controlI)];
    var readI :- ReadForward(units.read, dim, Gather(st.memory, slots), control[nidx + 1],
                             k.read(units.readKey));
    var written :- WriteForward(units.write, dim, st.memory, readI, children,
                                k.write(units.writeKey));
    var log := st.log + StepLog(nidx, slots, written.0);
    if nidx == 0 then
      Ok(State(control, st.memory, Some(written.1), log))
    else
      Ok(State(control, st.memory[nidx + 1 := k.add(st.memory[nidx + 1], written.1)], st.final, log))
  }

  /** What the units of a step compute once nothing can raise: the Control
      unit attends with the question (fused with the parents' controls when
      the unit has the fusion layer), its output is added into slot
      `nidx + 1`, and the Read and Write units both see the parents'
      memories gathered from `slots`. */
  function ApplyUnits<V>(k: Kernels<V>, q: V, st: State<V>, nidx: nat, keys: StepKeys, fused: bool,
                         slots: seq<nat>): State<V>
    requires nidx + 1 < |st.control| == |st.memory|
    requires forall i :: 0 <= i < |slots| ==> slots[i] < |st.control|
  {
    var question := k.input(keys.input)(q);
    var parentControls := Gather(st.control, slots);
    var controlI := k.attend(keys.control)(if fused then k.fuse(keys.control)(parentControls, question) else question);
    var control := st.control[nidx + 1 := k.add(st.control[nidx + 1], controlI)];
    var parentMemories := Gather(st.memory, slots);
    var readI := k.read(keys.read)(parentMemories, control[nidx + 1]);
    var memoryI := k.write(keys.write)(parentMemories, readI);
    var log := st.log + StepLog(nidx, slots, slots);
    if nidx == 0 then State(control, st.memory, Some(memoryI), log)
    else State(control, st.memory[nidx + 1 := k.add(st.memory[nidx + 1], memoryI)], st.final, log)
  }

  /** Every child index of step `nidx` names a slot of the storage. */
  predicate ChildrenInRange(m: TMAC, nidx: nat)
    requires nidx < |m.children|
  {
    forall i :: 0 <= i < |m.children[nidx]| ==> InRange(|m.children| + 1, m.children[nidx][i] + 1)
  }

  /** On a built network a step whose child indices all name storage slots
      runs to completion: the arity assertions of the Control, Read and Write
      units, the dict lookups and the layer shapes never fail. */
  lemma StepChecked<V>(m: TMAC, k: Kernels<V>, q: V, st: State<V>, nidx: nat)
    requires Built(m) && nidx < |m.children| && ChildrenInRange(m, nidx)
    requires Shaped(st, |m.children| + 1)
    ensures ParentSlots(|m.children| + 1, m.children[nidx]).Ok?
    ensures Step(m, k, q, st, nidx) ==
            Ok(ApplyUnits(k, q, st, nidx, IntendedKeys(m, nidx), m.usePriorControl,
                          ParentSlots(|m.children| + 1, m.children[nidx]).value))
  {
    DispatchTotal(m, nidx);
    WriteGatherAgrees(|m.children| + 1, m.children[nidx]);
    var units := SelectInstances(m, nidx).value;
    var slots := ParentSlots(|m.children| + 1, m.children[nidx]).value;
    StepApplies(m, k, q, st, nidx, units, slots);
  }

  /** A step whose dispatch found instances well formed for its arity, and
      whose Write unit resolves its indices to the slots the loop gathered,
      computes the unit functions of those instances on those slots. */
  lemma StepApplies<V>(m: TMAC, k: Kernels<V>, q: V, st: State<V>, nidx: nat, units: Instances, slots: seq<nat>)
    requires nidx < |m.children| && Shaped(st, |m.children| + 1)
    requires SelectInstances(m, nidx) == Ok(units)
    requires ParentSlots(|m.children| + 1, m.children[nidx]) == Ok(slots)
    requires ResolveAll(|m.children| + 1, Succ(WriteIndices(m.children[nidx]))) == Ok(slots)
    requires && units.control.WellFormed(m.moduleDim) && units.control.numChildren == |slots|
             && units.read.WellFormed(m.moduleDim) && units.read.numChildren == |slots|
             && units.write.WellFormed(m.moduleDim) && units.write.numChildren == |slots|
    ensures Step(m, k, q, st, nidx) ==
            Ok(ApplyUnits(k, q, st, nidx, units.Keys(), units.control.controlQuestionTransformer.Some?, slots))
  {
    UnitsApply(m.moduleDim, k, q, st, |m.children| + 1, nidx, m.children[nidx], units, slots);
    StepDispatches(m, k, q, st, nidx, units, slots);
  }

  /** Once dispatch and gathering have succeeded, a step is the run of its
      units on the instances and slots they found. */
  lemma StepDispatches<V>(m: TMAC, k: Kernels<V>, q: V, st: State<V>, nidx: nat, units: Instances, slots: seq<nat>)
    requires nidx < |m.children| && Shaped(st, |m.children| + 1)
    requires SelectInstances(m, nidx) == Ok(units)
    requires ParentSlots(|m.children| + 1, m.children[nidx]) == Ok(slots)
    ensures Step(m, k, q, st, nidx) == RunUnits(m.moduleDim, k, q, st, nidx, m.children[nidx], units, slots)
  {
  }

  /** Instances well formed for the arity of the gathered slots, on slots the
      Write unit resolves the same way, compute the unit functions. */
  lemma UnitsApply<V>(dim: nat, k: Kernels<V>, q: V, st: State<V>, size: nat, nidx: nat, children: seq<int>,
                      units: Instances, slots: seq<nat>)
    requires Shaped(st, size) && nidx + 1 < size
    requires forall i :: 0 <= i < |slots| ==> slots[i] < size
    requires && units.control.WellFormed(dim) && units.control.numChildren == |slots|
             && units.read.WellFormed(dim) && units.read.numChildren == |slots|
             && units.write.WellFormed(dim) && units.write.numChildren == |slots|
    requires ResolveAll(size, Succ(WriteIndices(children))) == Ok(slots)
    ensures RunUnits(dim, k, q, st, nidx, children, units, slots)
            == Ok(ApplyUnits(k, q, st, nidx, units.Keys(), units.control.controlQuestionTransformer.Some?, slots))
  {
  }

  /** On a built network a step raises exactly when one of its child
      indices is outside the storage, and then it raises IndexError. */
  lemma StepSucceeds<V>(m: TMAC, k: Kernels<V>, q: V, st: State<V>, nidx: nat)
    requires Built(m) && nidx < |m.children|
    requires Shaped(st, |m.children| + 1)
    ensures Step(m, k, q, st, nidx).Ok? <==> ChildrenInRange(m, nidx)
    ensures Step(m, k, q, st, nidx).Err? ==> Step(m, k, q, st, nidx).error.IndexError?
  {
    if ChildrenInRange(m, nidx) {
      StepChecked(m, k, q, st, nidx);
    } else {
      DispatchTotal(m, nidx);
      var children := m.children[nidx];
      var slots := ParentSlots(|m.children| + 1, children);
      assert slots.Err?;
      var i :| 0 <= i < |Succ(children)| && slots.error == IndexError(Succ(children)[i]);
    }
  }

  // ----------------------------------------------------------------- the loop

  /** `range(hi - 1, lo - 1, -1)`: the indices from `hi - 1` down to `lo`. */
  function Descending(hi: nat, lo: nat): (r: seq<nat>)
    requires lo <= hi
    ensures |r| == hi - lo
    ensures forall i :: 0 <= i < |r| ==> r[i] == hi - 1 - i
    decreases hi
  {
    if hi == lo then [] else [hi - 1] + Descending(hi - 1, lo)
  }

  /** The loop `for nidx in range(S - 1, -1, -1)` visits every step exactly
      once, in strictly decreasing order, and the root last. */
  lemma TraversalOrder(hi: nat, lo: nat)
    requires lo <= hi
    ensures var order := Descending(hi, lo);
            && (forall i, j :: 0 <= i < j < |order| ==> order[i] > order[j])
            && (forall s :: lo <= s < hi ==> multiset(order)[s] == 1)
            && (forall s :: s < lo || s >= hi ==> s !in order)
            && (hi > lo ==> order[|order| - 1] == lo)
  {
    DescendingCounts(hi, lo);
  }

  lemma {:induction false} DescendingCounts(hi: nat, lo: nat)
    requires lo <= hi
    ensures forall s :: multiset(Descending(hi, lo))[s] == if lo <= s < hi then 1 else 0
    decreases hi
  {
    if hi > lo {
      DescendingCounts(hi - 1, lo);
      assert multiset(Descending(hi, lo)) == multiset{hi - 1} + multiset(Descending(hi - 1, lo));
    }
  }

  /** A step of the loop: the state before it and its index to the state
      after it, or what it raised. */
  type StepFn<!V> = (State<V>, nat) -> Result<State<V>>

  /** A step of the loop as a function value. An index outside the steps
      raises IndexError, as indexing `children_list` would; so does a
      storage of the wrong size, as indexing it would. The loop passes
      neither. */
  function Transition<V>(m: TMAC, k: Kernels<V>, q: V): StepFn<V> {
    (st: State<V>, nidx: nat) =>
      if nidx < |m.children| && Shaped(st, |m.children| + 1) then Step(m, k, q, st, nidx)
      else Err(IndexError(nidx))
  }

  /** The steps of `order`, one after another, stopping at the first raise. */
  function Run<V>(step: StepFn<V>, st: State<V>, order: seq<nat>): Result<State<V>>
    decreases |order|
  {
    if |order| == 0 then Ok(st)
    else
      var next :- step(st, order[0]);
      Run(step, next, order[1..])
  }

  /** The storage set-up and the loop of `TMAC.forward`: the initial control
      is the question after dropout, and the Input units read it after the
      question transform. */
  function Loop<V>(m: TMAC, k: Kernels<V>, question: V, initMemory: V): Result<State<V>> {
    var initControl := k.questionDropout(question);
    var q := k.questionTransform(initControl);
    var S := |m.children|;
    Run(Transition(m, k, q), InitialState(k, S, initControl, initMemory), Descending(S, 0))
  }

  /** The root's memory output, `final_module_output`; with no steps at all
      it was never assigned and reading it raises. */
  function Reason<V>(m: TMAC, k: Kernels<V>, question: V, initMemory: V): (r: Result<V>)
    ensures |m.children| == 0 ==> r == Err(UnboundLocalError)
  {
    var st :- Loop(m, k, question, initMemory);
    if st.final.None? then Err(UnboundLocalError) else Ok(st.final.value)
  }

  /** `TMAC.forward`: the classifier reads the final memory and the original
      question (before dropout and transform). */
  function Forward<V>(m: TMAC, k: Kernels<V>, question: V, initMemory: V): (r: Result<V>)
    ensures |m.children| == 0 ==> r == Err(UnboundLocalError)
  {
    var final :- Reason(m, k, question, initMemory);
    Ok(k.classify(final, question))
  }
}
