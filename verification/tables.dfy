/** The unit-instance tables of the network and the dispatch that picks the
    instance a step runs. A table is either a dict keyed by child count (the
    unit type's parameters are shared among steps with the same number of
    children) or a list with one instance per step. */
module Tables {
  import opened Common
  import opened Units

  /** Which instance a step runs, and so which weights its numeric work uses:
      the one Input unit of the network, the entry of a dict keyed by a
      child count, or the entry of a list indexed by a step. */
  datatype InstanceKey = Sole | ByCount(count: nat) | ByStep(step: nat)

  datatype Table<U> = Dict(entries: map<nat, U>) | List(items: seq<U>)

  /** The distinct numbers of children among the steps. */
  function ChildCounts(children: seq<seq<int>>): set<nat> {
    set i | 0 <= i < |children| :: |children[i]|
  }

  /** A table built from the children lists: with sharing, one instance per
      distinct child count, keyed by it; without, one instance per step,
      entry `i` built for step `i`'s child count. */
  function BuildTable<U>(shared: bool, children: seq<seq<int>>, make: nat -> U): (t: Table<U>)
    ensures t.Dict? <==> shared
    ensures t.Dict? ==> t.entries.Keys == ChildCounts(children)
    ensures t.Dict? ==> forall n :: n in t.entries ==> t.entries[n] == make(n)
    ensures t.List? ==> |t.items| == |children|
    ensures t.List? ==> forall i :: 0 <= i < |children| ==> t.items[i] == make(|children[i]|)
  {
    if shared then Dict(map n | n in ChildCounts(children) :: make(n))
    else List(seq(|children|, i requires 0 <= i < |children| => make(|children[i]|)))
  }

  /** `table[k]`: a missing dict key raises KeyError, a list index past the
      end raises IndexError. */
  function Lookup<U>(t: Table<U>, k: nat): (r: Result<(InstanceKey, U)>)
    ensures t.Dict? ==> (r.Ok? <==> k in t.entries)
    ensures t.List? ==> (r.Ok? <==> k < |t.items|)
    ensures r.Ok? && t.Dict? ==> r.value == (ByCount(k), t.entries[k])
    ensures r.Ok? && t.List? ==> r.value == (ByStep(k), t.items[k])
  {
    match t
    case Dict(m) => if k in m then Ok((ByCount(k), m[k])) else Err(KeyError(k))
    case List(s) => if k < |s| then Ok((ByStep(k), s[k])) else Err(IndexError(k))
  }

  /** The dispatch of `TMAC.forward` for the Control, Read and Write units:
      by the step's child count when the unit type is shared, by the step
      index otherwise. */
  function Select<U>(shared: bool, t: Table<U>, nidx: nat, numChildren: nat): (r: Result<(InstanceKey, U)>)
    ensures shared && t.Dict? ==> (r.Ok? <==> numChildren in t.entries)
    ensures !shared && t.List? ==> (r.Ok? <==> nidx < |t.items|)
    ensures r.Ok? && shared && t.Dict? ==> r.value == (ByCount(numChildren), t.entries[numChildren])
    ensures r.Ok? && !shared && t.List? ==> r.value == (ByStep(nidx), t.items[nidx])
    ensures r.Err? ==> var key := if shared then numChildren else nidx;
                       r.error == if t.Dict? then KeyError(key) else IndexError(key)
  {
    Lookup(t, if shared then numChildren else nidx)
  }

  /** The instance a step is meant to run under a sharing flag. */
  function KeyFor(shared: bool, nidx: nat, numChildren: nat): InstanceKey {
    if shared then ByCount(numChildren) else ByStep(nidx)
  }

  /** Dispatch on a table built from the same children lists and the same
      flag never raises, and finds the instance built for the step's own
      child count. */
  lemma SelectBuilt<U>(shared: bool, children: seq<seq<int>>, make: nat -> U, nidx: nat)
    requires nidx < |children|
    ensures Select(shared, BuildTable(shared, children, make), nidx, |children[nidx]|)
            == Ok((KeyFor(shared, nidx, |children[nidx]|), make(|children[nidx]|)))
  {
    if shared {
      assert |children[nidx]| in ChildCounts(children);
    }
  }

  /** Steps that share an instance have the same number of children, so an
      instance is only ever reused at the arity it was built for. */
  lemma SharedInstancesAgreeOnArity(shared: bool, children: seq<seq<int>>, i: nat, j: nat)
    requires i < |children| && j < |children|
    requires KeyFor(shared, i, |children[i]|) == KeyFor(shared, j, |children[j]|)
    ensures |children[i]| == |children[j]|
  {
  }

  /** A dict table holds one instance per distinct child count, so never more
      instances than there are steps, and at least one when there is a step. */
  lemma {:induction false} ChildCountsBounded(children: seq<seq<int>>)
    ensures |ChildCounts(children)| <= |children|
    ensures |children| > 0 ==> |ChildCounts(children)| >= 1
  {
    if |children| == 0 {
      assert ChildCounts(children) == {};
    } else {
      var init := children[..|children| - 1];
      ChildCountsBounded(init);
      assert ChildCounts(children) == ChildCounts(init) + {|children[|children| - 1]|} by {
        forall n | n in ChildCounts(children)
          ensures n in ChildCounts(init) + {|children[|children| - 1]|}
        {
          var i :| 0 <= i < |children| && |children[i]| == n;
          if i < |children| - 1 {
            assert init[i] == children[i];
          }
        }
        forall n | n in ChildCounts(init)
          ensures n in ChildCounts(children)
        {
          var i :| 0 <= i < |init| && |init[i]| == n;
          assert children[i] == init[i];
        }
      }
    }
  }

  // ------------------------------------------------------------- Input units

  /** The Input units: one for the whole network, or one per step. */
  datatype InputUnits = Shared(unit: InputUnit) | PerStep(units: seq<InputUnit>)

  function BuildInputUnits(shared: bool, numSteps: nat, dim: nat): (t: InputUnits)
    ensures t.Shared? <==> shared
    ensures t.PerStep? ==> |t.units| == numSteps
    ensures t.Shared? ==> t.unit == NewInputUnit(dim)
    ensures t.PerStep? ==> forall i :: 0 <= i < numSteps ==> t.units[i] == NewInputUnit(dim)
  {
    if shared then Shared(NewInputUnit(dim)) else PerStep(seq(numSteps, _ => NewInputUnit(dim)))
  }

  /** The Input unit of step `nidx`: the shared one, or entry `nidx` of the
      per-step list, which raises IndexError past its end. */
  function SelectInput(t: InputUnits, nidx: nat): (r: Result<(InstanceKey, InputUnit)>)
    ensures t.Shared? ==> r == Ok((Sole, t.unit))
    ensures t.PerStep? ==> (r.Ok? <==> nidx < |t.units|)
    ensures t.PerStep? && r.Ok? ==> r.value == (ByStep(nidx), t.units[nidx])
  {
    match t
    case Shared(u) => Ok((Sole, u))
    case PerStep(us) => if nidx < |us| then Ok((ByStep(nidx), us[nidx])) else Err(IndexError(nidx))
  }

  /** The Input instance a step is meant to run. */
  function InputKeyFor(shared: bool, nidx: nat): InstanceKey {
    if shared then Sole else ByStep(nidx)
  }
}
