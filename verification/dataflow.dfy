/** Properties of the whole reasoning loop: when it raises, which slots it
    leaves alone, how often each slot is written, and that on a tree whose
    children come after their parents every gathered slot has been written
    before it is read.

    The loop lemmas are stated for any step function with the properties
    `Framed`, `Raises` and `Computes`, and `Transition` is shown to have
    them once; the reasoning about the whole pass then never has to look
    inside a single step. */
module Dataflow {
  import opened Common
  import opened Network
  import opened Driver

  // ------------------------------------------------- what a step guarantees

  /** Every child index of every step names a storage slot. */
  predicate AllChildrenInRange(m: TMAC) {
    forall j :: 0 <= j < |m.children| ==> ChildrenInRange(m, j)
  }

  /** On storages of `size` slots, every step keeps to its frame. */
  ghost predicate Framed<V(!new)>(step: StepFn<V>, size: nat) {
    forall st: State<V>, nidx: nat ::
      Shaped(st, size) && nidx + 1 < size && step(st, nidx).Ok? ==> StepFrame(st, nidx, step(st, nidx).value)
  }

  /** Every step of `m` raises exactly when one of its child indices is out of
      range, and then raises IndexError. */
  ghost predicate Raises<V(!new)>(step: StepFn<V>, m: TMAC) {
    forall st: State<V>, nidx: nat ::
      Shaped(st, |m.children| + 1) && nidx < |m.children| ==>
        && (step(st, nidx).Ok? <==> ChildrenInRange(m, nidx))
        && (step(st, nidx).Err? ==> step(st, nidx).error.IndexError?)
  }

  /** Every step of `m` whose child indices are in range runs the instances
      it is meant to run on the slots of its children. */
  ghost predicate Computes<V(!new)>(step: StepFn<V>, m: TMAC, k: Kernels<V>, q: V) {
    forall st: State<V>, nidx: nat ::
      Shaped(st, |m.children| + 1) && nidx < |m.children| && ChildrenInRange(m, nidx) ==>
        step(st, nidx) == Ok(ApplyUnits(k, q, st, nidx, IntendedKeys(m, nidx), m.usePriorControl,
                                        ParentSlots(|m.children| + 1, m.children[nidx]).value))
  }

  lemma TransitionFramed<V(!new)>(m: TMAC, k: Kernels<V>, q: V)
    ensures Framed(Transition(m, k, q), |m.children| + 1)
  {
  }

  lemma TransitionRaises<V(!new)>(m: TMAC, k: Kernels<V>, q: V)
    requires Built(m)
    ensures Raises(Transition(m, k, q), m)
  {
    forall st: State<V>, nidx: nat | Shaped(st, |m.children| + 1) && nidx < |m.children|
      ensures (Transition(m, k, q)(st, nidx).Ok? <==> ChildrenInRange(m, nidx))
      ensures Transition(m, k, q)(st, nidx).Err? ==> Transition(m, k, q)(st, nidx).error.IndexError?
    {
      StepSucceeds(m, k, q, st, nidx);
    }
  }

  lemma TransitionComputes<V(!new)>(m: TMAC, k: Kernels<V>, q: V)
    requires Built(m)
    ensures Computes(Transition(m, k, q), m, k, q)
  {
    var step := Transition(m, k, q);
    forall st: State<V>, nidx: nat | Shaped(st, |m.children| + 1) && nidx < |m.children| && ChildrenInRange(m, nidx)
      ensures step(st, nidx) == Ok(ApplyUnits(k, q, st, nidx, IntendedKeys(m, nidx), m.usePriorControl,
                                              ParentSlots(|m.children| + 1, m.children[nidx]).value))
    {
      StepChecked(m, k, q, st, nidx);
    }
  }

  // ------------------------------------------------------------- composition

  lemma {:induction false} RunAppend<V(!new)>(step: StepFn<V>, st: State<V>, a: seq<nat>, b: seq<nat>)
    ensures Run(step, st, a + b) ==
            (match Run(step, st, a)
             case Ok(st') => Run(step, st', b)
             case Err(e) => Err(e))
    decreases |a|
  {
    if |a| == 0 {
      assert a + b == b;
    } else {
      assert (a + b)[0] == a[0] && (a + b)[1..] == a[1..] + b;
      var next := step(st, a[0]);
      if next.Ok? {
        RunAppend(step, next.value, a[1..], b);
      }
    }
  }

  lemma RunOne<V(!new)>(step: StepFn<V>, st: State<V>, nidx: nat)
    ensures Run(step, st, [nidx]) == step(st, nidx)
  {
    assert [nidx][1..] == [];
  }

  /** Running down to `lo` is running down to `lo + 1`, then step `lo`. */
  lemma RunLast<V(!new)>(step: StepFn<V>, st: State<V>, hi: nat, lo: nat)
    requires lo < hi
    ensures Run(step, st, Descending(hi, lo)) ==
            (match Run(step, st, Descending(hi, lo + 1))
             case Ok(st') => step(st', lo)
             case Err(e) => Err(e))
  {
    assert Descending(hi, lo) == Descending(hi, lo + 1) + [lo];
    RunAppend(step, st, Descending(hi, lo + 1), [lo]);
    var before := Run(step, st, Descending(hi, lo + 1));
    if before.Ok? {
      RunOne(step, before.value, lo);
    }
  }

  // ------------------------------------------------------------ when it raises

  /** Steps `hi - 1` down to `lo` run to completion exactly when all their
      child indices are in range; otherwise the run stops with IndexError. */
  lemma {:induction false} RunSucceeds<V(!new)>(step: StepFn<V>, m: TMAC, st: State<V>, hi: nat, lo: nat)
    requires Framed(step, |m.children| + 1) && Raises(step, m)
    requires lo <= hi <= |m.children| && Shaped(st, |m.children| + 1)
    ensures Run(step, st, Descending(hi, lo)).Ok? <==> forall j :: lo <= j < hi ==> ChildrenInRange(m, j)
    ensures Run(step, st, Descending(hi, lo)).Err? ==> Run(step, st, Descending(hi, lo)).error.IndexError?
    decreases hi
  {
    if hi > lo {
      assert Descending(hi, lo) == [hi - 1] + Descending(hi - 1, lo);
      var next := step(st, hi - 1);
      if next.Ok? {
        RunSucceeds(step, m, next.value, hi - 1, lo);
      }
    }
  }

  /** Steps `hi - 1` down to `lo` keep the storage sizes, assign the final
      result exactly when the root is among them, and change control slots
      `lo + 1` to `hi` only, and memory slots `lo + 1` to `hi` other than the
      root's slot 1: the sentinel slot 0 and every slot of a step not yet run
      keep their value, and the root's memory never enters storage. */
  lemma {:induction false} RunFrame<V(!new)>(step: StepFn<V>, size: nat, st: State<V>, hi: nat, lo: nat)
    requires Framed(step, size)
    requires lo <= hi < size && Shaped(st, size)
    requires Run(step, st, Descending(hi, lo)).Ok?
    ensures var st' := Run(step, st, Descending(hi, lo)).value;
            && Shaped(st', size)
            && (st'.final.Some? <==> st.final.Some? || (lo == 0 && hi > 0))
            && (forall s :: 0 <= s < size && (s <= lo || s > hi) ==> st'.control[s] == st.control[s])
            && (forall s :: 0 <= s < size && (s <= lo || s > hi || s == 1) ==> st'.memory[s] == st.memory[s])
    decreases hi
  {
    if hi > lo {
      assert Descending(hi, lo) == [hi - 1] + Descending(hi - 1, lo);
      var next := step(st, hi - 1).value;
      RunFrame(step, size, next, hi - 1, lo);
    }
  }

  /** The forward pass of a built network returns exactly when there is at
      least one step and every child index names a storage slot. Otherwise
      it raises IndexError (a child index outside the storage) or
      UnboundLocalError (no steps): never an arity assertion, a missing
      dict key or a size mismatch. */
  lemma ReasonSucceeds<V(!new)>(m: TMAC, k: Kernels<V>, question: V, initMemory: V)
    requires Built(m)
    ensures Reason(m, k, question, initMemory).Ok? <==> |m.children| > 0 && AllChildrenInRange(m)
    ensures Reason(m, k, question, initMemory).Err? ==>
              Reason(m, k, question, initMemory).error.IndexError? ||
              Reason(m, k, question, initMemory).error == UnboundLocalError
  {
    var c0 := k.questionDropout(question);
    var q := k.questionTransform(c0);
    var S := |m.children|;
    var init := InitialState(k, S, c0, initMemory);
    TransitionFramed(m, k, q);
    TransitionRaises(m, k, q);
    RunSucceeds(Transition(m, k, q), m, init, S, 0);
    if Run(Transition(m, k, q), init, Descending(S, 0)).Ok? {
      RunFrame(Transition(m, k, q), S + 1, init, S, 0);
    }
  }

  /** After a forward pass, the sentinel slot 0 still holds the initial
      control and memory, and the root's memory slot 1 still holds zero:
      the root's memory output is returned, never stored. */
  lemma SentinelAndRootSlots<V(!new)>(m: TMAC, k: Kernels<V>, question: V, initMemory: V)
    requires Built(m) && AllChildrenInRange(m)
    ensures Loop(m, k, question, initMemory).Ok?
    ensures Shaped(Loop(m, k, question, initMemory).value, |m.children| + 1)
    ensures var st := Loop(m, k, question, initMemory).value;
            && st.control[0] == k.questionDropout(question) && st.memory[0] == initMemory
            && (|m.children| > 0 ==> st.memory[1] == k.zero)
  {
    var c0 := k.questionDropout(question);
    var q := k.questionTransform(c0);
    var init := InitialState(k, |m.children|, c0, initMemory);
    TransitionFramed(m, k, q);
    TransitionRaises(m, k, q);
    RunSucceeds(Transition(m, k, q), m, init, |m.children|, 0);
    RunFrame(Transition(m, k, q), |m.children| + 1, init, |m.children|, 0);
  }

  /** Each step adds its outputs into its own slots (`slot = slot + output`),
      which reads the slot before writing it: on a built network with every
      child index in range, that read sees the zero the slot started with,
      whatever ran before. */
  lemma AddsIntoZero<V(!new)>(m: TMAC, k: Kernels<V>, question: V, initMemory: V, n: nat)
    requires Built(m) && AllChildrenInRange(m) && n < |m.children|
    ensures var c0 := k.questionDropout(question);
            var before := Run(Transition(m, k, k.questionTransform(c0)),
                              InitialState(k, |m.children|, c0, initMemory), Descending(|m.children|, n + 1));
            && before.Ok? && Shaped(before.value, |m.children| + 1)
            && before.value.control[n + 1] == k.zero && before.value.memory[n + 1] == k.zero
  {
    var c0 := k.questionDropout(question);
    var q := k.questionTransform(c0);
    TransitionFramed(m, k, q);
    TransitionRaises(m, k, q);
    RunKeepsOwnSlots(Transition(m, k, q), m, InitialState(k, |m.children|, c0, initMemory), n);
  }

  /** The steps before step `n` leave step `n`'s slots as they were. */
  lemma RunKeepsOwnSlots<V(!new)>(step: StepFn<V>, m: TMAC, init: State<V>, n: nat)
    requires Framed(step, |m.children| + 1) && Raises(step, m)
    requires AllChildrenInRange(m) && n < |m.children| && Shaped(init, |m.children| + 1)
    ensures var before := Run(step, init, Descending(|m.children|, n + 1));
            && before.Ok? && Shaped(before.value, |m.children| + 1)
            && before.value.control[n + 1] == init.control[n + 1]
            && before.value.memory[n + 1] == init.memory[n + 1]
  {
    RunSucceeds(step, m, init, |m.children|, n + 1);
    RunFrame(step, |m.children| + 1, init, |m.children|, n + 1);
  }

  // ------------------------------------------------------------------- writes

  /** Reads hold no write to any slot. */
  lemma {:induction false} ReadsHoldNoWrites(slots: seq<nat>)
    ensures forall x: Access :: x.IsWrite() ==> multiset(ControlReads(slots))[x] == 0
    ensures forall x: Access :: x.IsWrite() ==> multiset(MemoryReads(slots))[x] == 0
    decreases |slots|
  {
    if |slots| > 0 {
      ReadsHoldNoWrites(slots[1..]);
    }
  }

  /** How often a log laid out as a step's log is holds one write, whatever
      its reads. */
  lemma WriteCount(cr: seq<Access>, mr: seq<Access>, nidx: nat, x: Access)
    requires x.IsWrite() && multiset(cr)[x] == 0 && multiset(mr)[x] == 0
    ensures var log := cr + [WriteControl(nidx + 1)] + (mr + [ReadControl(nidx + 1)] + mr)
                       + (if nidx == 0 then [] else [WriteMemory(nidx + 1)]);
            multiset(log)[x] == (if x == WriteControl(nidx + 1) then 1 else 0)
                                + (if nidx > 0 && x == WriteMemory(nidx + 1) then 1 else 0)
  {
    var tail: seq<Access> := if nidx == 0 then [] else [WriteMemory(nidx + 1)];
    var log := cr + [WriteControl(nidx + 1)] + (mr + [ReadControl(nidx + 1)] + mr) + tail;
    assert multiset(log) == multiset(cr) + multiset{WriteControl(nidx + 1)} + multiset(mr)
                            + multiset{ReadControl(nidx + 1)} + multiset(mr) + multiset(tail);
  }

  /** `log` writes the control slots of steps `lo` to `hi - 1` once each,
      their memory slots once each except the root's, and nothing else. */
  ghost predicate WritesExactly(log: seq<Access>, lo: nat, hi: nat) {
    && (forall s :: multiset(log)[WriteControl(s)] == if lo < s <= hi then 1 else 0)
    && (forall s :: multiset(log)[WriteMemory(s)] == if lo < s <= hi && s >= 2 then 1 else 0)
  }

  /** The writes of one step: its own control slot once, its own memory slot
      once unless it is the root, nothing else. */
  lemma StepLogWrites(nidx: nat, slots: seq<nat>)
    ensures WritesExactly(StepLog(nidx, slots, slots), nidx, nidx + 1)
  {
    ReadsHoldNoWrites(slots);
    WritesAmongReads(ControlReads(slots), MemoryReads(slots), nidx);
  }

  /** A log laid out as a step's log is writes the step's own slots once each
      and nothing else, whatever its reads. */
  lemma WritesAmongReads(cr: seq<Access>, mr: seq<Access>, nidx: nat)
    requires forall x: Access :: x.IsWrite() ==> multiset(cr)[x] == 0
    requires forall x: Access :: x.IsWrite() ==> multiset(mr)[x] == 0
    ensures WritesExactly(cr + [WriteControl(nidx + 1)] + (mr + [ReadControl(nidx + 1)] + mr)
                          + (if nidx == 0 then [] else [WriteMemory(nidx + 1)]), nidx, nidx + 1)
  {
    var log := cr + [WriteControl(nidx + 1)] + (mr + [ReadControl(nidx + 1)] + mr)
               + (if nidx == 0 then [] else [WriteMemory(nidx + 1)]);
    forall s: nat ensures multiset(log)[WriteControl(s)] == if nidx < s <= nidx + 1 then 1 else 0 {
      assert WriteControl(s).IsWrite();
      WriteCount(cr, mr, nidx, WriteControl(s));
    }
    forall s: nat ensures multiset(log)[WriteMemory(s)] == if nidx < s <= nidx + 1 && s >= 2 then 1 else 0 {
      assert WriteMemory(s).IsWrite();
      WriteCount(cr, mr, nidx, WriteMemory(s));
    }
  }

  lemma WritesExactlyAppend(a: seq<Access>, b: seq<Access>, lo: nat, mid: nat, hi: nat)
    requires lo <= mid <= hi
    requires WritesExactly(a, mid, hi) && WritesExactly(b, lo, mid)
    ensures WritesExactly(a + b, lo, hi)
  {
    assert multiset(a + b) == multiset(a) + multiset(b);
  }

  /** `slots` gathers the parents of a step with these children: the
      sentinel for a leaf, otherwise one slot per child, slot `c + 1` for a
      child `c` that is not negative. */
  predicate GathersChildren(slots: seq<nat>, children: seq<int>) {
    && (|children| == 0 ==> slots == [0])
    && (|children| > 0 ==> |slots| == |children|)
    && (forall i :: 0 <= i < |children| && 0 <= children[i] ==> i < |slots| && slots[i] == children[i] + 1)
  }

  /** Every step of `m` whose child indices are in range appends its own
      accesses to the log, gathering the slots of its children. */
  ghost predicate LogsSteps<V(!new)>(step: StepFn<V>, m: TMAC) {
    forall st: State<V>, nidx: nat ::
      Shaped(st, |m.children| + 1) && nidx < |m.children| && ChildrenInRange(m, nidx) ==>
        && step(st, nidx).Ok? && Shaped(step(st, nidx).value, |m.children| + 1)
        && exists slots :: GathersChildren(slots, m.children[nidx]) &&
                           step(st, nidx).value.log == st.log + StepLog(nidx, slots, slots)
  }

  lemma ComputesLogs<V(!new)>(step: StepFn<V>, m: TMAC, k: Kernels<V>, q: V)
    requires Computes(step, m, k, q)
    ensures LogsSteps(step, m)
  {
    forall st: State<V>, nidx: nat | Shaped(st, |m.children| + 1) && nidx < |m.children| && ChildrenInRange(m, nidx)
      ensures && step(st, nidx).Ok? && Shaped(step(st, nidx).value, |m.children| + 1)
              && exists slots :: GathersChildren(slots, m.children[nidx]) &&
                                 step(st, nidx).value.log == st.log + StepLog(nidx, slots, slots)
    {
      var slots := ParentSlots(|m.children| + 1, m.children[nidx]).value;
      assert GathersChildren(slots, m.children[nidx]);
    }
  }

  /** The number of times slot `s` of each storage is written, once steps
      `S - 1` down to `n` have run from an empty log: the control slots of
      those steps once each, their memory slots once each except the
      root's, nothing else. */
  lemma {:induction false} RunWrites<V(!new)>(step: StepFn<V>, m: TMAC, init: State<V>, n: nat)
    requires LogsSteps(step, m) && AllChildrenInRange(m)
    requires n <= |m.children| && Shaped(init, |m.children| + 1) && init.log == []
    ensures Run(step, init, Descending(|m.children|, n)).Ok?
    ensures var st := Run(step, init, Descending(|m.children|, n)).value;
            Shaped(st, |m.children| + 1) && WritesExactly(st.log, n, |m.children|)
    decreases |m.children| - n
  {
    var S := |m.children|;
    if n < S {
      RunWrites(step, m, init, n + 1);
      RunLast(step, init, S, n);
      var before := Run(step, init, Descending(S, n + 1)).value;
      assert ChildrenInRange(m, n);
      var after := step(before, n).value;
      var slots :| GathersChildren(slots, m.children[n]) && after.log == before.log + StepLog(n, slots, slots);
      StepLogWrites(n, slots);
      WritesExactlyAppend(before.log, StepLog(n, slots, slots), n, n + 1, S);
      assert Run(step, init, Descending(S, n)) == Ok(after);
      assert WritesExactly(after.log, n, S);
    } else {
      assert Descending(S, n) == [];
    }
  }

  /** Over a whole forward pass, each control slot `1..S` is written exactly
      once and each memory slot `2..S` exactly once; the root's memory slot
      1 and the sentinel slot 0 are never written. */
  lemma WriteOnce<V(!new)>(m: TMAC, k: Kernels<V>, question: V, initMemory: V)
    requires Built(m) && AllChildrenInRange(m)
    ensures Loop(m, k, question, initMemory).Ok?
    ensures var log := Loop(m, k, question, initMemory).value.log;
            && (forall s :: multiset(log)[WriteControl(s)] == if 1 <= s <= |m.children| then 1 else 0)
            && (forall s :: multiset(log)[WriteMemory(s)] == if 2 <= s <= |m.children| then 1 else 0)
  {
    var c0 := k.questionDropout(question);
    var q := k.questionTransform(c0);
    TransitionComputes(m, k, q);
    ComputesLogs(Transition(m, k, q), m, k, q);
    RunWrites(Transition(m, k, q), m, InitialState(k, |m.children|, c0, initMemory), 0);
  }

  // ------------------------------------------------------ reads after writes

  /** Reading `a` after the accesses `before` sees a value some step wrote:
      a read of a slot other than the sentinel comes after a write to it. */
  predicate Justified(before: seq<Access>, a: Access) {
    match a
    case ReadControl(s) => s == 0 || WriteControl(s) in before
    case ReadMemory(s) => s == 0 || WriteMemory(s) in before
    case _ => true
  }

  /** Every read in the log of a slot other than the sentinel comes after a
      write to that slot. */
  predicate ReadsAfterWrites(log: seq<Access>) {
    forall p :: 0 <= p < |log| ==> Justified(log[..p], log[p])
  }

  lemma ExtendJustified(log: seq<Access>, more: seq<Access>)
    requires ReadsAfterWrites(log)
    requires forall i :: 0 <= i < |more| ==> Justified(log, more[i])
    ensures ReadsAfterWrites(log + more)
  {
    var all := log + more;
    forall p | 0 <= p < |all| ensures Justified(all[..p], all[p]) {
      if p < |log| {
        assert all[..p] == log[..p];
      } else {
        assert all[..p] == log + more[..p - |log|];
        assert all[p] == more[p - |log|];
      }
    }
  }

  /** Each child index comes after its parent's index and names a step. */
  predicate WellOrdered(children: seq<seq<int>>) {
    forall j, i :: 0 <= j < |children| && 0 <= i < |children[j]| ==> j < children[j][i] < |children|
  }

  lemma WellOrderedInRange(m: TMAC)
    requires WellOrdered(m.children)
    ensures AllChildrenInRange(m)
  {
    forall j | 0 <= j < |m.children| ensures ChildrenInRange(m, j) {
      forall i | 0 <= i < |m.children[j]| ensures InRange(|m.children| + 1, m.children[j][i] + 1) {
        assert j < m.children[j][i];
      }
    }
  }

  /** Reads of slots that are the sentinel or have been written in `log`
      are justified by `log`. */
  lemma {:induction false} ReadsJustified(log: seq<Access>, slots: seq<nat>)
    requires forall i :: 0 <= i < |slots| ==>
               slots[i] == 0 || (WriteControl(slots[i]) in log && WriteMemory(slots[i]) in log)
    ensures forall i :: 0 <= i < |ControlReads(slots)| ==> Justified(log, ControlReads(slots)[i])
    ensures forall i :: 0 <= i < |MemoryReads(slots)| ==> Justified(log, MemoryReads(slots)[i])
    decreases |slots|
  {
    if |slots| > 0 {
      ReadsJustified(log, slots[1..]);
      assert slots[0] == 0 || (WriteControl(slots[0]) in log && WriteMemory(slots[0]) in log);
    }
  }

  /** A step of a well-ordered tree reads nothing unwritten, given that
      every step after it has written its slots. */
  lemma StepReadsAfterWrites(log: seq<Access>, nidx: nat, slots: seq<nat>)
    requires ReadsAfterWrites(log)
    requires forall i :: 0 <= i < |slots| ==>
               slots[i] == 0 || (WriteControl(slots[i]) in log && WriteMemory(slots[i]) in log)
    ensures ReadsAfterWrites(log + StepLog(nidx, slots, slots))
  {
    var tail: seq<Access> := if nidx == 0 then [] else [WriteMemory(nidx + 1)];
    var cr := ControlReads(slots);
    var mr := MemoryReads(slots);
    ReadsJustified(log, slots);
    ExtendJustified(log, cr);
    var log1 := log + cr + [WriteControl(nidx + 1)];
    ExtendJustified(log + cr, [WriteControl(nidx + 1)]);
    ReadsJustified(log1, slots);
    ExtendJustified(log1, mr);
    ExtendJustified(log1 + mr, [ReadControl(nidx + 1)]);
    var log2 := log1 + mr + [ReadControl(nidx + 1)];
    ReadsJustified(log2, slots);
    ExtendJustified(log2, mr);
    ExtendJustified(log2 + mr, tail);
    assert log + StepLog(nidx, slots, slots) == log2 + mr + tail;
  }

  /** A step writes its own control slot, and its own memory slot unless it
      is the root; what was in the log stays. */
  lemma StepWritesOwnSlots(log: seq<Access>, nidx: nat, slots: seq<nat>)
    ensures WriteControl(nidx + 1) in log + StepLog(nidx, slots, slots)
    ensures nidx > 0 ==> WriteMemory(nidx + 1) in log + StepLog(nidx, slots, slots)
    ensures forall a :: a in log ==> a in log + StepLog(nidx, slots, slots)
  {
    var tail: seq<Access> := if nidx == 0 then [] else [WriteMemory(nidx + 1)];
    var all := log + StepLog(nidx, slots, slots);
    var pre := log + ControlReads(slots);
    assert all == pre + [WriteControl(nidx + 1)]
                  + (MemoryReads(slots) + [ReadControl(nidx + 1)] + MemoryReads(slots)) + tail;
    assert all[|pre|] == WriteControl(nidx + 1);
    if nidx > 0 {
      assert all[|all| - 1] == WriteMemory(nidx + 1);
    }
  }

  /** The slots written before a step are still written after it, and the
      step adds its own. */
  lemma WrittenSlotsGrow(before: seq<Access>, after: seq<Access>, n: nat, S: nat)
    requires forall a :: a in before ==> a in after
    requires WriteControl(n + 1) in after && (n > 0 ==> WriteMemory(n + 1) in after)
    requires forall s :: n + 1 < s <= S ==> WriteControl(s) in before
    requires forall s :: n + 1 < s <= S && s >= 2 ==> WriteMemory(s) in before
    ensures forall s :: n < s <= S ==> WriteControl(s) in after
    ensures forall s :: n < s <= S && s >= 2 ==> WriteMemory(s) in after
  {
    forall s | n < s <= S ensures WriteControl(s) in after {
      if s > n + 1 {
        assert WriteControl(s) in before;
      }
    }
    forall s | n < s <= S && s >= 2 ensures WriteMemory(s) in after {
      if s > n + 1 {
        assert WriteMemory(s) in before;
      }
    }
  }

  /** Once steps `S - 1` down to `n` of a well-ordered tree have run from an
      empty log, each of their slots has been written and no read so far
      saw an unwritten slot. */
  lemma {:induction false} RunReadsAfterWrites<V(!new)>(step: StepFn<V>, m: TMAC, init: State<V>, n: nat)
    requires LogsSteps(step, m) && WellOrdered(m.children)
    requires n <= |m.children| && Shaped(init, |m.children| + 1) && init.log == []
    ensures Run(step, init, Descending(|m.children|, n)).Ok?
    ensures var st := Run(step, init, Descending(|m.children|, n)).value;
            && Shaped(st, |m.children| + 1)
            && ReadsAfterWrites(st.log)
            && (forall s :: n < s <= |m.children| ==> WriteControl(s) in st.log)
            && (forall s :: n < s <= |m.children| && s >= 2 ==> WriteMemory(s) in st.log)
    decreases |m.children| - n
  {
    var S := |m.children|;
    if n < S {
      RunReadsAfterWrites(step, m, init, n + 1);
      RunLast(step, init, S, n);
      WellOrderedInRange(m);
      var before := Run(step, init, Descending(S, n + 1)).value;
      assert ChildrenInRange(m, n);
      var children := m.children[n];
      var after := step(before, n).value;
      var slots :| GathersChildren(slots, children) && after.log == before.log + StepLog(n, slots, slots);
      forall i | 0 <= i < |slots|
        ensures slots[i] == 0 || (WriteControl(slots[i]) in before.log && WriteMemory(slots[i]) in before.log)
      {
        if |children| > 0 {
          assert n < children[i];
        }
      }
      StepReadsAfterWrites(before.log, n, slots);
      StepWritesOwnSlots(before.log, n, slots);
      assert Run(step, init, Descending(S, n)) == Ok(after);
      WrittenSlotsGrow(before.log, after.log, n, S);
    } else {
      assert Descending(S, n) == [];
    }
  }

  /** On a tree whose children come after their parents, a forward pass
      never reads a control or memory slot of a step before that step wrote
      it: every gathered slot other than the sentinel has been written. */
  lemma GatheredSlotsWritten<V(!new)>(m: TMAC, k: Kernels<V>, question: V, initMemory: V)
    requires Built(m) && WellOrdered(m.children)
    ensures Loop(m, k, question, initMemory).Ok?
    ensures ReadsAfterWrites(Loop(m, k, question, initMemory).value.log)
  {
    var c0 := k.questionDropout(question);
    var q := k.questionTransform(c0);
    TransitionComputes(m, k, q);
    ComputesLogs(Transition(m, k, q), m, k, q);
    RunReadsAfterWrites(Transition(m, k, q), m, InitialState(k, |m.children|, c0, initMemory), 0);
  }
}
