/** What the reasoning loop computes, stated without storages: on a tree
    whose children come after their parents, each step's Control unit reads
    the controls of its children (the initial control for a leaf) and its
    Read and Write units read the memories of its children (the initial
    memory for a leaf). A slot starts at zero and receives one addition, so
    a child's value is `add(zero, output)`. The root's memory output is the
    answer the classifier reads.

    The reference is recursive over the tree; the loop fills a table bottom
    up. `ReasonMatchesReference` shows they agree. */
module Reference {
  import opened Common
  import opened Units
  import opened Network
  import opened Driver
  import opened Dataflow

  /** What a parent reads from a child's slot: the zero it started at, plus
      the child's one output. */
  function Stored<V>(k: Kernels<V>, out: V): V {
    k.add(k.zero, out)
  }

  /** The controls step `j` gathers: the initial control `c0` for a leaf,
      otherwise the stored control of each child in order. */
  function ParentControls<V>(m: TMAC, k: Kernels<V>, q: V, c0: V, j: nat): (r: seq<V>)
    requires WellOrdered(m.children) && j < |m.children|
    ensures |r| == Arity(|m.children[j]|)
    decreases |m.children| - j, 0
  {
    var cs := m.children[j];
    if |cs| == 0 then [c0]
    else seq(|cs|, i requires 0 <= i < |cs| => Stored(k, ControlOut(m, k, q, c0, cs[i])))
  }

  /** The output of step `j`'s Control unit: its attention over the question
      the step's Input unit produced, fused first with the parents' controls
      when the network uses the prior control. */
  function ControlOut<V>(m: TMAC, k: Kernels<V>, q: V, c0: V, j: nat): V
    requires WellOrdered(m.children) && j < |m.children|
    decreases |m.children| - j, 1
  {
    var keys := IntendedKeys(m, j);
    var question := k.input(keys.input)(q);
    var parents := ParentControls(m, k, q, c0, j);
    k.attend(keys.control)(if m.usePriorControl then k.fuse(keys.control)(parents, question) else question)
  }

  /** The memories step `j` gathers: the initial memory `m0` for a leaf,
      otherwise the stored memory of each child in order. */
  function ParentMemories<V>(m: TMAC, k: Kernels<V>, q: V, c0: V, m0: V, j: nat): (r: seq<V>)
    requires WellOrdered(m.children) && j < |m.children|
    ensures |r| == Arity(|m.children[j]|)
    decreases |m.children| - j, 0
  {
    var cs := m.children[j];
    if |cs| == 0 then [m0]
    else seq(|cs|, i requires 0 <= i < |cs| => Stored(k, MemoryOut(m, k, q, c0, m0, cs[i])))
  }

  /** The output of step `j`'s Write unit: it and the Read unit see the
      parents' memories, and the Read unit attends with the step's stored
      control. */
  function MemoryOut<V>(m: TMAC, k: Kernels<V>, q: V, c0: V, m0: V, j: nat): V
    requires WellOrdered(m.children) && j < |m.children|
    decreases |m.children| - j, 1
  {
    var keys := IntendedKeys(m, j);
    var parents := ParentMemories(m, k, q, c0, m0, j);
    var readI := k.read(keys.read)(parents, Stored(k, ControlOut(m, k, q, c0, j)));
    k.write(keys.write)(parents, readI)
  }

  /** The storage after steps `S - 1` down to `n` have run: the sentinel
      holds the initial control and memory; the slots of those steps hold
      their stored reference outputs, except the root's memory slot; every
      other slot is still zero; the final result is the root's memory output
      once the root has run. */
  ghost predicate Matches<V>(m: TMAC, k: Kernels<V>, q: V, c0: V, m0: V, st: State<V>, n: nat)
    requires WellOrdered(m.children) && n <= |m.children|
  {
    var S := |m.children|;
    && Shaped(st, S + 1)
    && st.control[0] == c0 && st.memory[0] == m0
    && (forall j :: n <= j < S ==> st.control[j + 1] == Stored(k, ControlOut(m, k, q, c0, j)))
    && (forall j :: n <= j < S && j != 0 ==> st.memory[j + 1] == Stored(k, MemoryOut(m, k, q, c0, m0, j)))
    && (forall s :: 1 <= s <= n ==> st.control[s] == k.zero)
    && (forall s :: 1 <= s <= S && (s <= n || s == 1) ==> st.memory[s] == k.zero)
    && st.final == (if n == 0 && S > 0 then Some(MemoryOut(m, k, q, c0, m0, 0)) else None)
  }

  lemma InitialMatches<V>(m: TMAC, k: Kernels<V>, q: V, c0: V, m0: V)
    requires WellOrdered(m.children)
    ensures Matches(m, k, q, c0, m0, InitialState(k, |m.children|, c0, m0), |m.children|)
  {
  }

  /** Gathering the slots of step `n`'s children from a storage that matches
      the reference after its children ran yields the reference's parent
      controls and memories. */
  lemma GatherMatches<V>(m: TMAC, k: Kernels<V>, q: V, c0: V, m0: V, st: State<V>, n: nat, slots: seq<nat>)
    requires WellOrdered(m.children) && n < |m.children|
    requires Matches(m, k, q, c0, m0, st, n + 1)
    requires ParentSlots(|m.children| + 1, m.children[n]) == Ok(slots)
    ensures Gather(st.control, slots) == ParentControls(m, k, q, c0, n)
    ensures Gather(st.memory, slots) == ParentMemories(m, k, q, c0, m0, n)
  {
    var cs := m.children[n];
    var controls := Gather(st.control, slots);
    var memories := Gather(st.memory, slots);
    if |cs| > 0 {
      forall i | 0 <= i < |cs|
        ensures controls[i] == ParentControls(m, k, q, c0, n)[i]
        ensures memories[i] == ParentMemories(m, k, q, c0, m0, n)[i]
      {
        var c := cs[i];
        assert n < c < |m.children| && slots[i] == c + 1;
        assert controls[i] == Stored(k, ControlOut(m, k, q, c0, c));
        assert memories[i] == Stored(k, MemoryOut(m, k, q, c0, m0, c));
      }
    } else {
      assert slots == [0];
    }
  }

  /** Step `n` run on a storage that matches the reference after steps
      `S - 1` down to `n + 1` leaves one that matches it after step `n`. */
  lemma StepMatches<V>(m: TMAC, k: Kernels<V>, q: V, c0: V, m0: V, st: State<V>, n: nat, slots: seq<nat>)
    requires WellOrdered(m.children) && n < |m.children|
    requires Matches(m, k, q, c0, m0, st, n + 1)
    requires ParentSlots(|m.children| + 1, m.children[n]) == Ok(slots)
    ensures Matches(m, k, q, c0, m0, ApplyUnits(k, q, st, n, IntendedKeys(m, n), m.usePriorControl, slots), n)
  {
    GatherMatches(m, k, q, c0, m0, st, n, slots);
    var st' := ApplyUnits(k, q, st, n, IntendedKeys(m, n), m.usePriorControl, slots);
    assert st.control[n + 1] == k.zero;
    assert st'.control[n + 1] == Stored(k, ControlOut(m, k, q, c0, n));
    if n > 0 {
      assert st.memory[n + 1] == k.zero;
      assert st'.memory[n + 1] == Stored(k, MemoryOut(m, k, q, c0, m0, n));
    } else {
      assert st'.final == Some(MemoryOut(m, k, q, c0, m0, 0));
    }
    MatchesExtend(m, k, q, c0, m0, st, st', n);
  }

  /** A storage that matches the reference after step `n + 1`, changed only
      in step `n`'s slots and only to step `n`'s stored reference outputs,
      matches it after step `n`. */
  lemma MatchesExtend<V>(m: TMAC, k: Kernels<V>, q: V, c0: V, m0: V, st: State<V>, st': State<V>, n: nat)
    requires WellOrdered(m.children) && n < |m.children|
    requires Matches(m, k, q, c0, m0, st, n + 1)
    requires Shaped(st', |m.children| + 1)
    requires forall s :: 0 <= s <= |m.children| && s != n + 1 ==> st'.control[s] == st.control[s]
    requires forall s :: 0 <= s <= |m.children| && (s != n + 1 || n == 0) ==> st'.memory[s] == st.memory[s]
    requires st'.control[n + 1] == Stored(k, ControlOut(m, k, q, c0, n))
    requires n > 0 ==> st'.memory[n + 1] == Stored(k, MemoryOut(m, k, q, c0, m0, n)) && st'.final == st.final
    requires n == 0 ==> st'.final == Some(MemoryOut(m, k, q, c0, m0, 0))
    ensures Matches(m, k, q, c0, m0, st', n)
  {
  }

  /** Every step `n` takes a storage that matches the reference after steps
      `S - 1` down to `n + 1` to one that matches it after step `n`. */
  ghost predicate Advances<V(!new)>(step: StepFn<V>, m: TMAC, k: Kernels<V>, q: V, c0: V, m0: V)
    requires WellOrdered(m.children)
  {
    forall st: State<V>, n: nat ::
      n < |m.children| && Matches(m, k, q, c0, m0, st, n + 1) ==>
        step(st, n).Ok? && Matches(m, k, q, c0, m0, step(st, n).value, n)
  }

  lemma ComputesAdvances<V(!new)>(step: StepFn<V>, m: TMAC, k: Kernels<V>, q: V, c0: V, m0: V)
    requires Computes(step, m, k, q) && WellOrdered(m.children)
    ensures Advances(step, m, k, q, c0, m0)
  {
    WellOrderedInRange(m);
    forall st: State<V>, n: nat | n < |m.children| && Matches(m, k, q, c0, m0, st, n + 1)
      ensures step(st, n).Ok? && Matches(m, k, q, c0, m0, step(st, n).value, n)
    {
      assert ChildrenInRange(m, n);
      var slots := ParentSlots(|m.children| + 1, m.children[n]).value;
      StepMatches(m, k, q, c0, m0, st, n, slots);
    }
  }

  /** Steps `S - 1` down to `n`, each advancing the match, leave a storage
      that matches the reference after step `n`. */
  lemma {:induction false} RunMatches<V(!new)>(step: StepFn<V>, m: TMAC, k: Kernels<V>, q: V, c0: V, m0: V,
                                              init: State<V>, n: nat)
    requires WellOrdered(m.children) && Advances(step, m, k, q, c0, m0)
    requires n <= |m.children| && Matches(m, k, q, c0, m0, init, |m.children|)
    ensures Run(step, init, Descending(|m.children|, n)).Ok?
    ensures Matches(m, k, q, c0, m0, Run(step, init, Descending(|m.children|, n)).value, n)
    decreases |m.children| - n
  {
    var S := |m.children|;
    if n < S {
      RunMatches(step, m, k, q, c0, m0, init, n + 1);
      RunLast(step, init, S, n);
      var before := Run(step, init, Descending(S, n + 1)).value;
      assert step(before, n).Ok?;
    } else {
      assert Descending(S, n) == [];
    }
  }

  /** On a built network whose children come after their parents, the
      forward pass fills every step's control slot, and every step's memory
      slot but the root's, with the stored reference output, and returns the
      root's reference memory output; the classifier reads it next to the
      original question. */
  lemma ReasonMatchesReference<V(!new)>(m: TMAC, k: Kernels<V>, question: V, m0: V)
    requires Built(m) && WellOrdered(m.children) && |m.children| > 0
    ensures Loop(m, k, question, m0).Ok? && Shaped(Loop(m, k, question, m0).value, |m.children| + 1)
    ensures var c0 := k.questionDropout(question);
            var q := k.questionTransform(c0);
            && (forall j :: 0 <= j < |m.children| ==>
                  Loop(m, k, question, m0).value.control[j + 1] == Stored(k, ControlOut(m, k, q, c0, j)))
            && (forall j :: 1 <= j < |m.children| ==>
                  Loop(m, k, question, m0).value.memory[j + 1] == Stored(k, MemoryOut(m, k, q, c0, m0, j)))
            && Reason(m, k, question, m0) == Ok(MemoryOut(m, k, q, c0, m0, 0))
            && Forward(m, k, question, m0) == Ok(k.classify(MemoryOut(m, k, q, c0, m0, 0), question))
  {
    var c0 := k.questionDropout(question);
    var q := k.questionTransform(c0);
    var init := InitialState(k, |m.children|, c0, m0);
    TransitionComputes(m, k, q);
    ComputesAdvances(Transition(m, k, q), m, k, q, c0, m0);
    InitialMatches(m, k, q, c0, m0);
    RunMatches(Transition(m, k, q), m, k, q, c0, m0, init, 0);
  }

  /** When adding to zero gives back what is added, as adding a vector to a
      zero tensor does, every control slot holds exactly the output of its
      step's Control unit, the value the step's Read unit was handed. */
  lemma ControlSlotsExact<V(!new)>(m: TMAC, k: Kernels<V>, question: V, m0: V)
    requires Built(m) && WellOrdered(m.children) && |m.children| > 0
    requires forall x :: k.add(k.zero, x) == x
    ensures Loop(m, k, question, m0).Ok? && Shaped(Loop(m, k, question, m0).value, |m.children| + 1)
    ensures var c0 := k.questionDropout(question);
            var q := k.questionTransform(c0);
            forall j :: 0 <= j < |m.children| ==>
              Loop(m, k, question, m0).value.control[j + 1] == ControlOut(m, k, q, c0, j)
  {
    ReasonMatchesReference(m, k, question, m0);
  }
}
