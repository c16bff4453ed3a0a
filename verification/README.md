# Tree-structured MAC reasoning network: the discrete skeleton

This project models the structure of `TMAC` in `vr/models/tmaced_met.py`:
a reasoning network whose steps form a tree given by `children_list`. Each
step runs an Input, a Control, a Read and a Write unit. The steps run from
the last index down to the root (index 0), and their outputs live in two
storages: control and memory. Each storage has `S + 1` slots. Slot 0 is the
sentinel, and slot `i + 1` belongs to step `i`. The root's memory output goes
to the classifier (`OutputUnit`).

The model keeps what the network does with indices, shapes and slots, and
leaves the numbers abstract:

- **Vectors** are a type parameter `V`. The numeric work of every unit is a
  function in `Driver.Kernels`, indexed by the instance (`Tables.InstanceKey`)
  that runs it. So "which weights a step uses" is part of what is proved.
- **Layers** are their shapes (`Common.Linear`). Where the model tracks the
  width of what goes into a layer (`Common.ApplyLinear`), a wrong width is an
  error value. So is every exception the code can raise (`Common.Error`),
  and Python's negative indexing is modelled too (`Common.ResolveIndex`).
  The vectors in `V` carry no width: every one is taken to be `dim` wide,
  and the places where that is not checked are listed under "Left out".
- **Storage accesses are logged.** The state's log records every slot a step
  gathers from, hands to its Read unit or adds into. Adding into a slot
  (`slot = slot + output`, lines 223 and 245) reads the slot's old value and
  writes the sum, and the log records it as one write. On a built network
  whose child indices are all in range, `Dataflow.AddsIntoZero` shows that
  the value read there is the zero the slot started with.
  With the log, the write-once and read-after-write properties can be stated.

Modules, one file each:

| file | module | models |
|---|---|---|
| common.dfy | Common | errors, `Result`, layer shapes, Python indexing, gathering |
| units.dfy | Units | the four unit classes: constructors (arity, widths) and the checks in `forward` |
| tables.dfy | Tables | the instance tables (dict by child count, or list by step) and their lookup |
| network.dfy | Network | `TMAC.__init__` (sharing flags, tables, classifier) and the dispatch of a step |
| output.dfy | Output | `OutputUnit`: the layer chain, the batch normalisations and the order of `forward` |
| driver.dfy | Driver | `TMAC.forward`: storages, one step, the loop, the final output |
| dataflow.dfy | Dataflow | properties of the whole loop: errors, frame, writes, reads after writes |
| reference.dfy | Reference | a recursive definition of what each step computes, and the proof that the loop computes it |

The loop is `Driver.Run`, a fold of a step function over the step indices.
The proofs about the loop use a few facts about the step function
(`Dataflow.Framed`, `Dataflow.Raises`, `Dataflow.Computes`). These are shown
once for the real step (`Driver.Transition`).

Two behaviours at the edges:

- **No steps.** With an empty `children_list`, the loop never runs and
  `final_module_output` is never assigned. Reading it raises
  `UnboundLocalError`, which `Driver.Reason` returns.
- **Out-of-range child indices.** A child index outside the storage raises
  `IndexError` during gathering. A child index of `-1` in a non-empty list
  reads the sentinel, and other negative indices count from the end, as
  Python's indexing does.

## Model

| member | source | states |
|---|---|---|
| Common.ApplyLinear | vr/models/tmaced_met.py:289 | feeding `width` features through a layer succeeds exactly when `width` is the layer's input width, yields its output width, and otherwise raises a size mismatch naming both widths |
| Common.ResolveIndex | vr/models/tmaced_met.py:217-218 | indexing a storage of `n` slots succeeds exactly for `-n <= k < n`, gives `k` or `k + n`, and otherwise raises IndexError for that index |
| Common.ResolveAll | vr/models/tmaced_met.py:313-314 | a loop of indexings succeeds exactly when every index is in range, keeps the order of the indices, and on failure raises IndexError for one of them |
| Common.Gather | vr/models/tmaced_met.py:217-218 | the gathered list has one entry per slot, in slot order, each the storage's entry at that slot |
| Units.Arity | vr/models/tmaced_met.py:299 | a unit built for 0 children accepts exactly one parent, and one built for `k > 0` children accepts `k` |
| Units.NewInputUnit | vr/models/tmaced_met.py:435-439 | the question transformer of an Input unit maps width `dim` to width `dim` |
| Units.NewControlUnit | vr/models/tmaced_met.py:396-407 | a Control unit has the normalised arity, and its fused layer exists exactly when the prior control is used, taking `(arity + 1) * dim` inputs |
| Units.ControlForward | vr/models/tmaced_met.py:411-421 | on a well-formed unit, the arity assertion at line 415 is the only failure: success exactly when the number of parent controls equals the arity, and the output attends with the fused or the plain question |
| Units.NewReadUnit | vr/models/tmaced_met.py:321-341 | a Read unit has the normalised arity, exactly `arity` per-slot transformers of width `dim` to `dim`, and a fused layer of `(arity + 1) * dim` inputs |
| Units.CheckPreMemoryTransformers | vr/models/tmaced_met.py:363-366 | the per-slot transformers pass exactly when each takes width `dim` and yields either the transformed image's width or width 1, which `expand` at line 365 broadcasts; otherwise ShapeError |
| Units.ReadForward | vr/models/tmaced_met.py:348-381 | on a well-formed unit, the assertion at line 362 is the only failure: success exactly when the number of parent memories equals the arity |
| Units.NewWriteUnit | vr/models/tmaced_met.py:295-302 | a Write unit has the normalised arity, and its fused layer takes `(arity + 1) * dim` inputs |
| Units.WriteIndices | vr/models/tmaced_met.py:309-310 | the index list has the normalised arity as its length: `[-1]` for an empty children list, and the children list otherwise |
| Units.WriteForward | vr/models/tmaced_met.py:306-318 | on a well-formed unit, it fails with the assertion at line 311 exactly when the arity differs, and otherwise gathers the slots `i + 1` of its indices, failing only on an index out of range |
| Tables.BuildTable | vr/models/tmaced_met.py:95-132 | with sharing, the table is a dict with exactly the distinct child counts as keys, each built for its count; without, a list with one entry per step, entry `i` built for step `i`'s child count |
| Tables.Lookup | vr/models/tmaced_met.py:194-207 | a dict lookup succeeds exactly for a present key and a list lookup exactly for an index below its length, and either gives that entry |
| Tables.Select | vr/models/tmaced_met.py:194-207 | a shared unit type is looked up by the step's child count in a dict and an unshared one by the step index in a list; the lookup succeeds exactly when that key is present, and otherwise raises KeyError (dict) or IndexError (list) for it |
| Tables.SelectBuilt | vr/models/tmaced_met.py:194-207 | dispatch on a table built from the same children lists never fails and gives the instance built for the step's own child count |
| Tables.SharedInstancesAgreeOnArity | vr/models/tmaced_met.py:194-207 | two steps that dispatch to the same instance have the same number of children |
| Tables.ChildCountsBounded | vr/models/tmaced_met.py:82 | a shared table holds at most one instance per step, and at least one when there is a step |
| Tables.BuildInputUnits | vr/models/tmaced_met.py:84-93 | the Input units are one shared unit or exactly one unit per step |
| Tables.SelectInput | vr/models/tmaced_met.py:192 | a shared Input unit serves every step, and a per-step list serves exactly the steps below its length |
| Network.ParseSharing | vr/models/tmaced_met.py:58 | a pattern switches sharing on exactly when it equals 1, and a list shorter than four raises IndexError |
| Network.NewTMAC | vr/models/tmaced_met.py:81-147 | construction succeeds exactly when at least four sharing patterns are given, and builds every table from the children lists and its flag, and the classifier from the hidden widths |
| Network.BuiltTables | vr/models/tmaced_met.py:82-132 | in a built network, each unit type's table is keyed by the distinct child counts or indexed by step according to its flag, and every instance has the normalised arity it is dispatched with |
| Network.SelectInstances | vr/models/tmaced_met.py:192-207 | the four lookups of a step in program order, the first failing one raising; what they find is stated by `Network.DispatchTotal`: on a built network all four succeed, with the intended keys and instances of the step's arity |
| Network.DispatchTotal | vr/models/tmaced_met.py:192-207 | in a built network, every step finds all four instances, keyed by child count when shared and by step otherwise, each well formed for the step's arity |
| Output.LayerSizes | vr/models/tmaced_met.py:263-264 | the sizes start at `2 * dim`, run through the hidden widths and end at the number of outputs |
| Output.ChainLinears | vr/models/tmaced_met.py:267-270 | one layer per consecutive pair of sizes, layer `i` taking size `i` to size `i + 1` |
| Output.ChainBatchnorms | vr/models/tmaced_met.py:271-273 | one entry per layer, the input width of that layer when batch normalisation is on and absent otherwise |
| Output.NewOutputUnit | vr/models/tmaced_met.py:256-273 | `len(hidden) + 1` layers that chain from `2 * dim` through the hidden widths to the number of outputs, with batch normalisations parallel to them |
| Output.Schedule | vr/models/tmaced_met.py:285-291 | the operations of `forward` in order; their contents are stated by `Output.ScheduleReLU`, `Output.ScheduleFromContents` and `Output.NoBatchnormWhenDisabled` |
| Output.RunWidths | vr/models/tmaced_met.py:285-291 | running the operations raises only a size mismatch (or an index error for a layer that does not exist), and operations other than linear layers leave the width unchanged |
| Output.OutputWidths | vr/models/tmaced_met.py:280-293 | the question first goes through its own transformer, and a question whose width is not that layer's input raises a size mismatch; every failure is a size mismatch or an index error; `Output.ChainedWidths` gives the width when the layers chain |
| Output.ChainedWidths | vr/models/tmaced_met.py:280-293 | a chained classifier fed the final memory and the question yields the width of its last layer |
| Output.ClassifierWidths | vr/models/tmaced_met.py:280-293 | the classifier a network builds never raises a size mismatch and yields exactly the number of answers |
| Output.BuiltChained | vr/models/tmaced_met.py:263-273 | the classifier a network builds is chained, and each batch normalisation matches its layer's input |
| Output.ScheduleReLU | vr/models/tmaced_met.py:285-293 | in `forward`, ReLU follows every layer but the last, and the last layer is the last operation |
| Output.NoBatchnormWhenDisabled | vr/models/tmaced_met.py:271-287 | with batch normalisation disabled, `forward` applies none |
| Output.ScheduleFromContents | vr/models/tmaced_met.py:285-291 | every layer from `i` on is applied, and only present batch normalisations are applied |
| Driver.InitialState | vr/models/tmaced_met.py:182-186 | both storages have `S + 1` slots, slot 0 holds the initial control and memory, and every other slot is zero |
| Driver.ParentSlots | vr/models/tmaced_met.py:213-218 | a leaf gathers only slot 0; otherwise gathering succeeds exactly when every child index is in range, and for each child in order the slot is `child + 1` with Python's indexing (counted from the end when negative) |
| Driver.WriteGatherAgrees | vr/models/tmaced_met.py:309-314 | the Write unit's own gathering reaches the same slots as the loop's gathering for the Control and Read units |
| Driver.Step | vr/models/tmaced_met.py:188-246 | a step changes only its own control slot and, unless it is the root, its own memory slot; only the root assigns the final output; the log only grows |
| Driver.RunUnits | vr/models/tmaced_met.py:210-246 | the units of a step change only the step's own control slot and, unless it is the root, its own memory slot; only the root's Write unit assigns the final output; the log only grows |
| Driver.UnitsApply | vr/models/tmaced_met.py:210-246 | with instances well formed for the number of gathered slots, and a Write unit that resolves its indices to those same slots, no unit raises, the Control unit fuses the parents' controls exactly when it has the fusion layer, and the outputs are added into the step's own slots |
| Driver.StepChecked | vr/models/tmaced_met.py:192-236 | in a built network with child indices in range, no assertion, lookup or shape check fails, and the step runs the intended instances on its children's slots |
| Driver.StepApplies | vr/models/tmaced_met.py:192-246 | a step whose lookup found instances well formed for its arity, and whose gathering found the slots the Write unit also resolves, runs its units on those instances and slots and computes their unit functions (`Driver.StepDispatches` is the unfolding of the step it rests on) |
| Driver.StepSucceeds | vr/models/tmaced_met.py:213-218 | in a built network, a step raises exactly when a child index is out of range, and then it raises IndexError |
| Driver.Run | vr/models/tmaced_met.py:188-246 | the steps of the order one after another, stopping at the first raise; its behaviour is stated by `Dataflow.RunAppend`, `Dataflow.RunSucceeds` and `Dataflow.RunFrame` |
| Driver.Loop | vr/models/tmaced_met.py:160-246 | dropout and the question transform, the storages of `Driver.InitialState`, then the steps from `S - 1` down to the root (`Driver.TraversalOrder`); what it computes is stated by `Reference.RunMatches` and `Reference.ReasonMatchesReference` |
| Driver.Reason | vr/models/tmaced_met.py:188-251 | with no steps, reading the never-assigned `final_module_output` raises UnboundLocalError; `Dataflow.ReasonSucceeds` and `Reference.ReasonMatchesReference` state when it succeeds and what it returns |
| Driver.Forward | vr/models/tmaced_met.py:151-253 | with no steps, the pass raises UnboundLocalError before the classifier runs; otherwise the classifier reads the final memory and the original question, as `Reference.ReasonMatchesReference` states |
| Driver.Descending | vr/models/tmaced_met.py:188 | the visiting order has `hi - lo` entries, entry `i` being `hi - 1 - i` |
| Driver.TraversalOrder | vr/models/tmaced_met.py:188 | every step index is visited exactly once, in strictly decreasing order, no other index is visited, and the root is last |
| Dataflow.TransitionRaises | vr/models/tmaced_met.py:188-218 | a step of a built network raises exactly when a child index is out of range, and then IndexError |
| Dataflow.TransitionComputes | vr/models/tmaced_met.py:188-246 | every step of a built network with its child indices in range computes the intended instances on its children's slots |
| Dataflow.RunAppend | vr/models/tmaced_met.py:188 | running two runs of steps one after the other is the run of their concatenation, stopping at the first error |
| Dataflow.RunLast | vr/models/tmaced_met.py:188 | running down to step `lo` is running down to `lo + 1` and then step `lo` |
| Dataflow.RunSucceeds | vr/models/tmaced_met.py:188-218 | a run of steps succeeds exactly when all their child indices are in range, and otherwise raises IndexError |
| Dataflow.RunFrame | vr/models/tmaced_met.py:222-224 | a run changes only the slots of the steps it runs, never slot 0 or the root's memory slot 1, and the final output is set exactly when the root ran |
| Dataflow.ReasonSucceeds | vr/models/tmaced_met.py:188-250 | a forward pass on a built network returns exactly when there is a step and every child index is in range; otherwise it raises IndexError or UnboundLocalError, never an assertion, key or shape error |
| Dataflow.RunKeepsOwnSlots | vr/models/tmaced_met.py:188-224 | when every child index is in range, the steps that run before step `n` succeed and leave step `n`'s control and memory slots as they started |
| Dataflow.AddsIntoZero | vr/models/tmaced_met.py:222-246 | on a built network with every child index in range, the addition a step makes into its own control and memory slots reads a slot that still holds zero |
| Dataflow.SentinelAndRootSlots | vr/models/tmaced_met.py:241-246 | a pass on a built network with every child index in range completes; afterwards slot 0 still holds the initial control and memory, and the root's memory slot still holds zero: the root's memory is never stored |
| Dataflow.StepLogWrites | vr/models/tmaced_met.py:213-246 | a step writes its own control slot once, its own memory slot once unless it is the root, and no other slot |
| Dataflow.WritesAmongReads | vr/models/tmaced_met.py:213-246 | the writes of a step's log are its own slots whatever its reads are |
| Dataflow.RunWrites | vr/models/tmaced_met.py:188-246 | after steps `S - 1` down to `n`, each of their control slots is written exactly once, and each of their memory slots but the root's is written exactly once; no other slot is written |
| Dataflow.WriteOnce | vr/models/tmaced_met.py:223-245 | in a whole pass, each control slot `1..S` is written exactly once, each memory slot `2..S` exactly once, and slot 0 and the root's memory slot never |
| Dataflow.StepReadsAfterWrites | vr/models/tmaced_met.py:213-236 | a step whose parent slots are all written keeps every read of the log preceded by a write of its slot |
| Dataflow.RunReadsAfterWrites | vr/models/tmaced_met.py:188-246 | when children follow their parents, every read in the log of steps `S - 1` down to `n` is of the sentinel or of a slot written earlier |
| Dataflow.GatheredSlotsWritten | vr/models/tmaced_met.py:213-236 | when children follow their parents, a forward pass never gathers a step's slot, and never hands a control slot to a Read unit, before that step wrote it |
| Reference.ParentControls | vr/models/tmaced_met.py:213-218 | the reference hands a step as many parent controls as its Control unit's normalised arity, so the assertion at line 415 holds for it |
| Reference.ParentMemories | vr/models/tmaced_met.py:227-232 | the reference hands a step as many parent memories as its Read and Write units' normalised arity, so the assertions at lines 311 and 362 hold for it |
| Reference.InitialMatches | vr/models/tmaced_met.py:182-186 | the initial storages agree with the reference before any step has run |
| Reference.GatherMatches | vr/models/tmaced_met.py:213-232 | once a step's children have run, gathering its parent slots yields the reference's parent controls and memories |
| Reference.StepMatches | vr/models/tmaced_met.py:210-246 | a step run after its children stores its reference outputs, and it sets the final output to the reference output when it is the root |
| Reference.RunMatches | vr/models/tmaced_met.py:188-246 | after steps `S - 1` down to `n`, the storage agrees with the reference |
| Reference.ReasonMatchesReference | vr/models/tmaced_met.py:160-250 | on a built network whose children follow their parents, every step's slots hold its reference outputs, and the pass returns the root's reference memory output, which the classifier reads with the original question |
| Reference.ControlSlotsExact | vr/models/tmaced_met.py:219-233 | on a built network whose children follow their parents, and when adding to zero is the identity, each control slot holds exactly its step's Control output, the value handed to the Read unit |

## Left out

- Floating-point numerics: the linear maps, tanh, ReLU values, softmax (lines 385-386 and 427-428), the weighted sums and dropout. They are the uninterpreted functions of `Driver.Kernels`, so no property depends on their values. Layers are kept only as their shapes.
- The image stem (`build_stem`), `coord_map`, and the feature tensors: foreign or float-only code. The image features and the question context and mask are fixed for a pass, and live inside the kernel functions.
- `init_modules`, `torch.randn` and the Xavier initialisation: random weights are not part of the structure.
- `build_classifier` from `vr.models.layers` is not part of this model. The classifier is `OutputUnit` as defined in `tmaced_met.py`.
- Module registration names (`add_module`), the CUDA tensor types, `Variable` and `.clone()`. Copy-on-write shows up only as the frame property of a step.
- The widths of the question context and the image features (lines 352, 390 and 424): they live inside the kernel functions, so the broadcasts against them are not checked. The two broadcasts between modelled widths (lines 365 and 374) are checked.
- Unchecked widths. Every vector is taken to be `dim` wide, and four places take a vector without checking its width: each Input unit's `question_transformer` (line 444, applied in `Driver.RunUnits`); `init_question_transformer` on the pooled question (line 168, in `Driver.Loop`); the classifier called at line 251 (the kernel `classify` in `Driver.Forward`; `Output.OutputWidths` checks the classifier's own layer chain from line 282 on, but not against the vectors `forward` passes it); and the storage fills from `init_control` and `init_memory` (lines 185-186).
- `children_list` after construction: `__init__` keeps the caller's list by reference (line 50), and `forward` reads it again (lines 188-190). `Network.Built`, the hypothesis of every theorem about a whole pass, presumes that list was not changed after construction.
- The batch dimension `N`: a vector stands for a whole batch, which the model treats as one value.
- Timing lists, `fwd_count`, the debug and verbose counters, and `save_activations`: bookkeeping that does not affect the output.
- `Reference.ReasonMatchesReference`: stated only for children lists in which every child index is greater than its parent's. The loop is modelled for any children lists, but an index pointing back to a step that has not run yet reads a zero slot, and no reference is stated for that case.
- `Reference.ControlSlotsExact`: assumes that adding to zero returns the added value. Without that assumption, `Reference.ReasonMatchesReference` states each slot as `add(zero, output)`, since floating-point addition is not modelled.
- `Driver.Transition`: a step index outside the steps, or a storage of the wrong size, raises IndexError. The loop never passes either.
