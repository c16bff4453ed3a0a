/** The construction half of `TMAC`: the configuration it accepts, the four
    sharing flags, and the unit-instance tables built from the children lists.
    The convolutional stem, the weight initialisation and the timing and
    debug counters are not part of this model. */
module Network {
  import opened Common
  import opened Units
  import opened Tables
  import opened Output

  /** Whether each unit type shares its parameters among steps with the same
      number of children (Input units: among all steps). */
  datatype Sharing = Sharing(input: bool, control: bool, read: bool, write: bool)

  /** The constructor arguments this model keeps. `numAnswers` stands for
      `len(vocab['answer_idx_to_token'])`. */
  datatype Config = Config(children: seq<seq<int>>,
                           moduleDim: nat,
                           usePriorControl: bool,
                           sharingPatterns: seq<int>,
                           classifierHidden: seq<nat>,
                           classifierBatchnorm: bool,
                           numAnswers: nat)

  datatype TMAC = TMAC(children: seq<seq<int>>,
                       moduleDim: nat,
                       usePriorControl: bool,
                       sharing: Sharing,
                       inputUnits: InputUnits,
                       controlUnits: Table<ControlUnit>,
                       readUnits: Table<ReadUnit>,
                       writeUnits: Table<WriteUnit>,
                       classifier: OutputUnit)

  /** A pattern entry switches sharing on exactly when it equals 1; the
      constructor reads entries 0 to 3, so a shorter list raises at the first
      missing one. */
  function ParseSharing(patterns: seq<int>): (r: Result<Sharing>)
    ensures r.Ok? <==> |patterns| >= 4
    ensures r.Err? ==> r.error == IndexError(|patterns|)
    ensures r.Ok? ==> && (r.value.input <==> patterns[0] == 1)
                      && (r.value.control <==> patterns[1] == 1)
                      && (r.value.read <==> patterns[2] == 1)
                      && (r.value.write <==> patterns[3] == 1)
  {
    var flags := seq(|patterns|, i requires 0 <= i < |patterns| => patterns[i] == 1);
    if |flags| < 4 then Err(IndexError(|flags|))
    else Ok(Sharing(flags[0], flags[1], flags[2], flags[3]))
  }

  function ControlTable(shared: bool, children: seq<seq<int>>, dim: nat, usePriorControl: bool): Table<ControlUnit> {
    BuildTable(shared, children, n => NewControlUnit(n, dim, usePriorControl))
  }

  function ReadTable(shared: bool, children: seq<seq<int>>, dim: nat): Table<ReadUnit> {
    BuildTable(shared, children, n => NewReadUnit(n, dim))
  }

  function WriteTable(shared: bool, children: seq<seq<int>>, dim: nat): Table<WriteUnit> {
    BuildTable(shared, children, n => NewWriteUnit(n, dim))
  }

  /** Every table of `m` is the one its own flags, children lists and width
      build. */
  predicate Built(m: TMAC) {
    && m.inputUnits == BuildInputUnits(m.sharing.input, |m.children|, m.moduleDim)
    && m.controlUnits == ControlTable(m.sharing.control, m.children, m.moduleDim, m.usePriorControl)
    && m.readUnits == ReadTable(m.sharing.read, m.children, m.moduleDim)
    && m.writeUnits == WriteTable(m.sharing.write, m.children, m.moduleDim)
  }

  /** `TMAC.__init__`, reduced to the parts the reasoning loop depends on. */
  function NewTMAC(c: Config): (r: Result<TMAC>)
    ensures r.Ok? <==> |c.sharingPatterns| >= 4
    ensures r.Ok? ==> Built(r.value)
    ensures r.Ok? ==> && r.value.children == c.children
                      && r.value.moduleDim == c.moduleDim
                      && r.value.usePriorControl == c.usePriorControl
                      && Ok(r.value.sharing) == ParseSharing(c.sharingPatterns)
    ensures r.Ok? ==>
              r.value.classifier == NewOutputUnit(c.moduleDim, c.classifierHidden, c.numAnswers,
                                                  c.classifierBatchnorm)
  {
    var sharing :- ParseSharing(c.sharingPatterns);
    Ok(TMAC(c.children, c.moduleDim, c.usePriorControl, sharing,
            BuildInputUnits(sharing.input, |c.children|, c.moduleDim),
            ControlTable(sharing.control, c.children, c.moduleDim, c.usePriorControl),
            ReadTable(sharing.read, c.children, c.moduleDim),
            WriteTable(sharing.write, c.children, c.moduleDim),
            NewOutputUnit(c.moduleDim, c.classifierHidden, c.numAnswers, c.classifierBatchnorm)))
  }

  /** The instance tables of a built network: with a flag set, one instance
      per distinct child count, keyed by it and built for it; with the flag
      clear, one instance per step, entry `i` built for step `i`'s child
      count. Every instance accepts exactly its normalised arity of parents. */
  lemma BuiltTables(m: TMAC)
    requires Built(m)
    ensures m.sharing.control ==> && m.controlUnits.Dict?
                                  && m.controlUnits.entries.Keys == ChildCounts(m.children)
                                  && forall n :: n in m.controlUnits.entries ==>
                                       m.controlUnits.entries[n].numChildren == Arity(n)
    ensures !m.sharing.control ==> && m.controlUnits.List?
                                   && |m.controlUnits.items| == |m.children|
                                   && forall i :: 0 <= i < |m.children| ==>
                                        m.controlUnits.items[i].numChildren == Arity(|m.children[i]|)
    ensures m.sharing.read ==> && m.readUnits.Dict?
                               && m.readUnits.entries.Keys == ChildCounts(m.children)
                               && forall n :: n in m.readUnits.entries ==>
                                    |m.readUnits.entries[n].preMemoryTransformers| == Arity(n)
    ensures !m.sharing.read ==> && m.readUnits.List?
                                && |m.readUnits.items| == |m.children|
                                && forall i :: 0 <= i < |m.children| ==>
                                     |m.readUnits.items[i].preMemoryTransformers| == Arity(|m.children[i]|)
    ensures m.sharing.write ==> && m.writeUnits.Dict?
                                && m.writeUnits.entries.Keys == ChildCounts(m.children)
                                && forall n :: n in m.writeUnits.entries ==>
                                     m.writeUnits.entries[n].numChildren == Arity(n)
    ensures !m.sharing.write ==> && m.writeUnits.List?
                                 && |m.writeUnits.items| == |m.children|
                                 && forall i :: 0 <= i < |m.children| ==>
                                      m.writeUnits.items[i].numChildren == Arity(|m.children[i]|)
    ensures m.sharing.input <==> m.inputUnits.Shared?
    ensures m.inputUnits.PerStep? ==> |m.inputUnits.units| == |m.children|
  {
  }

  /** The four instances step `nidx` runs. */
  datatype Instances = Instances(inputKey: InstanceKey, input: InputUnit,
                                 controlKey: InstanceKey, control: ControlUnit,
                                 readKey: InstanceKey, read: ReadUnit,
                                 writeKey: InstanceKey, write: WriteUnit)
  {
    function Keys(): StepKeys {
      StepKeys(inputKey, controlKey, readKey, writeKey)
    }
  }

  /** The keys of a step's four instances, which name the weights they use. */
  datatype StepKeys = StepKeys(input: InstanceKey, control: InstanceKey, read: InstanceKey, write: InstanceKey)

  /** The instances step `nidx` is meant to run under the sharing flags of `m`. */
  function IntendedKeys(m: TMAC, nidx: nat): StepKeys
    requires nidx < |m.children|
  {
    var n := |m.children[nidx]|;
    StepKeys(InputKeyFor(m.sharing.input, nidx), KeyFor(m.sharing.control, nidx, n),
             KeyFor(m.sharing.read, nidx, n), KeyFor(m.sharing.write, nidx, n))
  }

  /** The dispatch at the top of each iteration of `TMAC.forward`. */
  function SelectInstances(m: TMAC, nidx: nat): Result<Instances>
    requires nidx < |m.children|
  {
    var numChildren := |m.children[nidx]|;
    var i :- SelectInput(m.inputUnits, nidx);
    var c :- Select(m.sharing.control, m.controlUnits, nidx, numChildren);
    var r :- Select(m.sharing.read, m.readUnits, nidx, numChildren);
    var w :- Select(m.sharing.write, m.writeUnits, nidx, numChildren);
    Ok(Instances(i.0, i.1, c.0, c.1, r.0, r.1, w.0, w.1))
  }

  /** Dispatch is total on a built network: every step finds its four
      instances, keyed by its child count when the unit type is shared and
      by its index otherwise, and each is well formed for the step's own
      normalised arity. */
  lemma DispatchTotal(m: TMAC, nidx: nat)
    requires Built(m) && nidx < |m.children|
    ensures SelectInstances(m, nidx).Ok?
    ensures var s := SelectInstances(m, nidx).value;
            var n := |m.children[nidx]|;
            && s.inputKey == InputKeyFor(m.sharing.input, nidx)
            && s.controlKey == KeyFor(m.sharing.control, nidx, n)
            && s.readKey == KeyFor(m.sharing.read, nidx, n)
            && s.writeKey == KeyFor(m.sharing.write, nidx, n)
            && s.Keys() == IntendedKeys(m, nidx)
            && s.control.WellFormed(m.moduleDim) && s.control.numChildren == Arity(n)
            && (s.control.controlQuestionTransformer.Some? <==> m.usePriorControl)
            && s.read.WellFormed(m.moduleDim) && s.read.numChildren == Arity(n)
            && s.write.WellFormed(m.moduleDim) && s.write.numChildren == Arity(n)
  {
    var n := |m.children[nidx]|;
    SelectBuilt(m.sharing.control, m.children, n' => NewControlUnit(n', m.moduleDim, m.usePriorControl), nidx);
    SelectBuilt(m.sharing.read, m.children, n' => NewReadUnit(n', m.moduleDim), nidx);
    SelectBuilt(m.sharing.write, m.children, n' => NewWriteUnit(n', m.moduleDim), nidx);
    var c := NewControlUnit(n, m.moduleDim, m.usePriorControl);
    var r := NewReadUnit(n, m.moduleDim);
    var w := NewWriteUnit(n, m.moduleDim);
    var i := SelectInput(m.inputUnits, nidx).value;
    assert SelectInput(m.inputUnits, nidx) == Ok((InputKeyFor(m.sharing.input, nidx), i.1));
    assert Select(m.sharing.control, m.controlUnits, nidx, n) == Ok((KeyFor(m.sharing.control, nidx, n), c));
    assert Select(m.sharing.read, m.readUnits, nidx, n) == Ok((KeyFor(m.sharing.read, nidx, n), r));
    assert Select(m.sharing.write, m.writeUnits, nidx, n) == Ok((KeyFor(m.sharing.write, nidx, n), w));
    assert SelectInstances(m, nidx) == Ok(Instances(InputKeyFor(m.sharing.input, nidx), i.1,
                                                    KeyFor(m.sharing.control, nidx, n), c,
                                                    KeyFor(m.sharing.read, nidx, n), r,
                                                    KeyFor(m.sharing.write, nidx, n), w));
  }
}
