/** The Input, Control, Read and Write units of one reasoning step: the layer
    shapes each constructor builds from its child count, and the checks each
    `forward` makes before its numeric work. The numeric work itself (the
    attention, the weighted sums) is a function passed in by the caller. */
module Units {
  import opened Common

  /** The number of parent vectors a Control, Read or Write unit accepts: a
      leaf step has no children but still receives one parent, the sentinel. */
  function Arity(numChildren: nat): (a: nat)
    ensures a >= 1
    ensures numChildren == 0 ==> a == 1
    ensures numChildren > 0 ==> a == numChildren
  {
    if numChildren == 0 then 1 else numChildren
  }

  // ---------------------------------------------------------------- InputUnit

  datatype InputUnit = InputUnit(questionTransformer: Linear)

  function NewInputUnit(dim: nat): (u: InputUnit)
    ensures ApplyLinear(u.questionTransformer, dim) == Ok(dim)
  {
    InputUnit(Linear(dim, dim))
  }

  // -------------------------------------------------------------- ControlUnit

  /** `controlQuestionTransformer` exists exactly when the unit fuses its
      parents' controls into the question (the "use prior control" option). */
  datatype ControlUnit = ControlUnit(numChildren: nat,
                                     controlQuestionTransformer: Option<Linear>,
                                     scoreTransformer: Linear)
  {
    /** The shapes that make the arity assertion the unit's only failure:
        the fused layer takes the parents and the question, `numChildren + 1`
        vectors of width `dim`, and the scorer maps width `dim` to one score. */
    predicate WellFormed(dim: nat) {
      && numChildren >= 1
      && (controlQuestionTransformer.Some? ==>
            controlQuestionTransformer.value == Linear((numChildren + 1) * dim, dim))
      && scoreTransformer == Linear(dim, 1)
    }
  }

  function NewControlUnit(numChildren: nat, dim: nat, usePriorControl: bool): (u: ControlUnit)
    ensures u.WellFormed(dim)
    ensures u.numChildren == Arity(numChildren)
    ensures u.controlQuestionTransformer.Some? <==> usePriorControl
  {
    var arity := Arity(numChildren);
    ControlUnit(arity,
                if usePriorControl then Some(Linear((arity + 1) * dim, dim)) else None,
                Linear(dim, 1))
  }

  /** `ControlUnit.forward`: the arity assertion, the optional fusion of the
      parents' controls with the step's question (`fuse`), then attention over
      the question context (`attend`). */
  function ControlForward<V>(u: ControlUnit, dim: nat, preControls: seq<V>, question: V,
                             fuse: (seq<V>, V) -> V, attend: V -> V): (r: Result<V>)
    ensures u.WellFormed(dim) ==> (r.Ok? <==> |preControls| == u.numChildren)
    ensures u.WellFormed(dim) && r.Err? ==>
              r.error == AssertionError(u.numChildren, |preControls|)
    ensures r.Ok? ==> r.value == attend(if u.controlQuestionTransformer.Some?
                                        then fuse(preControls, question) else question)
  {
    if |preControls| != u.numChildren then
      Err(AssertionError(u.numChildren, |preControls|))
    else
      var controlQuestion :-
        match u.controlQuestionTransformer
        case None => Ok(question)
        case Some(l) =>
          var _ :- ApplyLinear(l, (|preControls| + 1) * dim);
          Ok(fuse(preControls, question));
      var _ :- ApplyLinear(u.scoreTransformer, dim);
      Ok(attend(controlQuestion))
  }

  // ----------------------------------------------------------------- ReadUnit

  datatype ReadUnit = ReadUnit(numChildren: nat,
                               imageElementTransformer: Linear,
                               preMemoryTransformers: seq<Linear>,
                               intermediateTransformer: Linear,
                               readAttentionTransformer: Linear)
  {
    /** One `dim -> dim` transformer per parent slot, and a fused layer over
        the parents' interaction terms plus the image, `numChildren + 1` wide. */
    predicate WellFormed(dim: nat) {
      && numChildren >= 1
      && imageElementTransformer == Linear(dim, dim)
      && |preMemoryTransformers| == numChildren
      && (forall i :: 0 <= i < |preMemoryTransformers| ==> preMemoryTransformers[i] == Linear(dim, dim))
      && intermediateTransformer == Linear((numChildren + 1) * dim, dim)
      && readAttentionTransformer == Linear(dim, 1)
    }
  }

  function NewReadUnit(numChildren: nat, dim: nat): (u: ReadUnit)
    ensures u.WellFormed(dim)
    ensures u.numChildren == Arity(numChildren)
  {
    var arity := Arity(numChildren);
    ReadUnit(arity,
             Linear(dim, dim),
             seq(arity, _ => Linear(dim, dim)),
             Linear((arity + 1) * dim, dim),
             Linear(dim, 1))
  }

  /** Each per-slot transformer takes a parent memory of width `dim` to a
      vector that `expand` can broadcast over the transformed image of width
      `w`: one of width `w`, or of width 1. */
  function CheckPreMemoryTransformers(ls: seq<Linear>, dim: nat, w: nat): (r: Result<()>)
    ensures r.Ok? <==> forall i :: 0 <= i < |ls| ==>
                         ls[i].inFeatures == dim && (ls[i].outFeatures == w || ls[i].outFeatures == 1)
    ensures r.Err? ==> r.error.ShapeError?
  {
    if |ls| == 0 then Ok(())
    else
      var out :- ApplyLinear(ls[0], dim);
      if out != w && out != 1 then Err(ShapeError(w, out))
      else
        var _ :- CheckPreMemoryTransformers(ls[1..], dim, w);
        assert forall i :: 1 <= i < |ls| ==> ls[i] == ls[1..][i - 1];
        Ok(())
  }

  /** `ReadUnit.forward`: transform the image, assert one transformer per
      parent memory, build the interaction terms, fuse them with the image,
      score against the current control and attend (`read`). The control,
      `dim` wide, is broadcast over the fused features, which needs them to
      be `dim` wide too unless the control has width 1. */
  function ReadForward<V>(u: ReadUnit, dim: nat, preMemories: seq<V>, control: V,
                          read: (seq<V>, V) -> V): (r: Result<V>)
    ensures u.WellFormed(dim) ==> (r.Ok? <==> |preMemories| == u.numChildren)
    ensures u.WellFormed(dim) && r.Err? ==>
              r.error == AssertionError(u.numChildren, |preMemories|)
    ensures r.Ok? ==> r.value == read(preMemories, control)
  {
    var w :- ApplyLinear(u.imageElementTransformer, dim);
    if |preMemories| != |u.preMemoryTransformers| then
      Err(AssertionError(|u.preMemoryTransformers|, |preMemories|))
    else
      var _ :- CheckPreMemoryTransformers(u.preMemoryTransformers, dim, w);
      var h :- ApplyLinear(u.intermediateTransformer, (|preMemories| + 1) * w);
      if h != dim && dim != 1 then Err(ShapeError(dim, h))
      else
        var _ :- ApplyLinear(u.readAttentionTransformer, h);
        Ok(read(preMemories, control))
  }

  // ---------------------------------------------------------------- WriteUnit

  datatype WriteUnit = WriteUnit(numChildren: nat, controlMemoryTransformer: Linear)
  {
    /** The fused layer takes the parents' memories and the read vector. */
    predicate WellFormed(dim: nat) {
      && numChildren >= 1
      && controlMemoryTransformer == Linear((numChildren + 1) * dim, dim)
    }
  }

  function NewWriteUnit(numChildren: nat, dim: nat): (u: WriteUnit)
    ensures u.WellFormed(dim)
    ensures u.numChildren == Arity(numChildren)
  {
    var arity := Arity(numChildren);
    WriteUnit(arity, Linear((arity + 1) * dim, dim))
  }

  /** The index list `WriteUnit.forward` works with: an empty list of children
      stands for the single index -1, whose slot -1 + 1 is the sentinel. */
  function WriteIndices(idx: seq<int>): (r: seq<int>)
    ensures |r| == Arity(|idx|)
    ensures |idx| == 0 ==> r == [-1]
    ensures |idx| > 0 ==> r == idx
  {
    if |idx| == 0 then [-1] else idx
  }

  /** `WriteUnit.forward`: the arity assertion, the gathering of
      `memories[i + 1]` for each index, then the affine fusion (`write`).
      Returns the storage slots it gathered together with the new memory. */
  function WriteForward<V>(u: WriteUnit, dim: nat, memories: seq<V>, currentRead: V,
                           idx: seq<int>, write: (seq<V>, V) -> V): (r: Result<(seq<nat>, V)>)
    ensures u.WellFormed(dim) ==>
              (r.Ok? <==> Arity(|idx|) == u.numChildren &&
                          ResolveAll(|memories|, Succ(WriteIndices(idx))).Ok?)
    ensures u.WellFormed(dim) && Arity(|idx|) != u.numChildren ==>
              r == Err(AssertionError(u.numChildren, Arity(|idx|)))
    ensures r.Ok? ==> Ok(r.value.0) == ResolveAll(|memories|, Succ(WriteIndices(idx)))
    ensures r.Ok? ==> r.value.1 == write(Gather(memories, r.value.0), currentRead)
  {
    var indices := WriteIndices(idx);
    if |indices| != u.numChildren then
      Err(AssertionError(u.numChildren, |indices|))
    else
      var slots :- ResolveAll(|memories|, Succ(indices));
      var prior := Gather(memories, slots);
      var _ :- ApplyLinear(u.controlMemoryTransformer, (|prior| + 1) * dim);
      Ok((slots, write(prior, currentRead)))
  }
}
