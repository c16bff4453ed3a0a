/** The classifier head (`OutputUnit`): the chain of linear layers built from
    the hidden widths, the optional batch normalisations running parallel to
    it, and the order in which `forward` applies them. Only widths are
    modelled; the layer arithmetic is left out. */
module Output {
  import opened Common

  /** `batchnorms[i]` is the feature count of the batch normalisation applied
      before linear layer `i`, or None when batch normalisation is off. */
  datatype OutputUnit = OutputUnit(questionTransformer: Linear,
                                   linears: seq<Linear>,
                                   batchnorms: seq<Option<nat>>)

  /** `[2 * dim] + hidden + [numOutputs]`: the widths the layers chain through;
      the input is the final memory next to the transformed question. */
  function LayerSizes(dim: nat, hidden: seq<nat>, numOutputs: nat): (r: seq<nat>)
    ensures |r| == |hidden| + 2 && r[0] == 2 * dim && r[|r| - 1] == numOutputs
    ensures forall i :: 0 <= i < |hidden| ==> r[i + 1] == hidden[i]
  {
    seq(|hidden| + 2, i requires 0 <= i < |hidden| + 2 =>
      if i == 0 then 2 * dim else if i <= |hidden| then hidden[i - 1] else numOutputs)
  }

  /** One linear layer per consecutive pair of `sizes` (the zip of the sizes
      with their own tail). */
  function ChainLinears(sizes: seq<nat>): (r: seq<Linear>)
    ensures |r| == if |sizes| == 0 then 0 else |sizes| - 1
    ensures forall i :: 0 <= i < |r| ==> r[i] == Linear(sizes[i], sizes[i + 1])
    decreases |sizes|
  {
    if |sizes| < 2 then [] else [Linear(sizes[0], sizes[1])] + ChainLinears(sizes[1..])
  }

  /** Alongside each linear layer, a batch normalisation over its input
      features when enabled. */
  function ChainBatchnorms(sizes: seq<nat>, withBatchnorm: bool): (r: seq<Option<nat>>)
    ensures |r| == if |sizes| == 0 then 0 else |sizes| - 1
    ensures forall i :: 0 <= i < |r| ==> r[i] == if withBatchnorm then Some(sizes[i]) else None
    decreases |sizes|
  {
    if |sizes| < 2 then []
    else [if withBatchnorm then Some(sizes[0]) else None] + ChainBatchnorms(sizes[1..], withBatchnorm)
  }

  /** `OutputUnit.__init__`: one linear layer per consecutive pair of sizes. */
  function NewOutputUnit(dim: nat, hidden: seq<nat>, numOutputs: nat, withBatchnorm: bool): (u: OutputUnit)
    ensures u.questionTransformer == Linear(dim, dim)
    ensures |u.linears| == |hidden| + 1
    ensures u.linears[0].inFeatures == 2 * dim
    ensures u.linears[|u.linears| - 1].outFeatures == numOutputs
    ensures forall i :: 0 <= i < |hidden| ==> u.linears[i].outFeatures == hidden[i]
    ensures forall i :: 0 <= i < |u.linears| - 1 ==> u.linears[i].outFeatures == u.linears[i + 1].inFeatures
    ensures |u.batchnorms| == |u.linears|
    ensures forall i :: 0 <= i < |u.batchnorms| ==>
              u.batchnorms[i] == (if withBatchnorm then Some(u.linears[i].inFeatures) else None)
  {
    var sizes := LayerSizes(dim, hidden, numOutputs);
    OutputUnit(Linear(dim, dim), ChainLinears(sizes), ChainBatchnorms(sizes, withBatchnorm))
  }

  /** One operation of `OutputUnit.forward` on the feature vector. */
  datatype Op = BatchNorm(layer: nat) | Dropout | Apply(layer: nat) | ReLU

  /** The operations for layer `i`: its batch normalisation if present,
      dropout, the linear layer, and ReLU unless the layer is the last. */
  function LayerOps(u: OutputUnit, i: nat): seq<Op>
    requires i < |u.linears| && |u.batchnorms| == |u.linears|
  {
    (if u.batchnorms[i].Some? then [BatchNorm(i)] else [])
    + [Dropout, Apply(i)]
    + (if i < |u.linears| - 1 then [ReLU] else [])
  }

  /** The operations of layers `i` onward, in order. */
  function ScheduleFrom(u: OutputUnit, i: nat): seq<Op>
    requires |u.batchnorms| == |u.linears|
    decreases |u.linears| - i
  {
    if i >= |u.linears| then [] else LayerOps(u, i) + ScheduleFrom(u, i + 1)
  }

  /** The loop of `OutputUnit.forward` over the zipped linears and batchnorms. */
  function Schedule(u: OutputUnit): seq<Op>
    requires |u.batchnorms| == |u.linears|
  {
    ScheduleFrom(u, 0)
  }

  /** The width of the features after `ops`, starting from width `w`, or the
      shape error the first mismatched layer raises. */
  function RunWidths(u: OutputUnit, ops: seq<Op>, w: nat): (r: Result<nat>)
    ensures r.Err? ==> r.error.ShapeError? || r.error.IndexError?
    ensures r.Ok? && (forall j :: 0 <= j < |ops| ==> !ops[j].Apply?) ==> r.value == w
    decreases |ops|
  {
    if |ops| == 0 then Ok(w)
    else
      var w' :-
        match ops[0]
        case BatchNorm(i) =>
          if i >= |u.batchnorms| then Err(IndexError(i))
          else if u.batchnorms[i].Some? && u.batchnorms[i].value != w then
            Err(ShapeError(u.batchnorms[i].value, w))
          else Ok(w)
        case Dropout => Ok(w)
        case Apply(i) => if i >= |u.linears| then Err(IndexError(i)) else ApplyLinear(u.linears[i], w)
        case ReLU => Ok(w);
      RunWidths(u, ops[1..], w')
  }

  /** `OutputUnit.forward` on widths: the final memory is concatenated with
      the transformed question, then the schedule runs. */
  function OutputWidths(u: OutputUnit, memoryWidth: nat, questionWidth: nat): (r: Result<nat>)
    requires |u.batchnorms| == |u.linears|
    ensures questionWidth != u.questionTransformer.inFeatures ==>
              r == Err(ShapeError(u.questionTransformer.inFeatures, questionWidth))
    ensures r.Err? ==> r.error.ShapeError? || r.error.IndexError?
  {
    var t :- ApplyLinear(u.questionTransformer, questionWidth);
    RunWidths(u, Schedule(u), memoryWidth + t)
  }

  lemma {:induction false} RunWidthsAppend(u: OutputUnit, a: seq<Op>, b: seq<Op>, w: nat)
    ensures RunWidths(u, a + b, w) ==
            (match RunWidths(u, a, w) case Ok(w') => RunWidths(u, b, w') case Err(e) => Err(e))
    decreases |a|
  {
    if |a| == 0 {
      assert a + b == b;
    } else {
      assert (a + b)[0] == a[0];
      assert (a + b)[1..] == a[1..] + b;
      var step :=
        match a[0]
        case BatchNorm(i) =>
          if i >= |u.batchnorms| then Err(IndexError(i))
          else if u.batchnorms[i].Some? && u.batchnorms[i].value != w then
            Err(ShapeError(u.batchnorms[i].value, w))
          else Ok(w)
        case Dropout => Ok(w)
        case Apply(i) => if i >= |u.linears| then Err(IndexError(i)) else ApplyLinear(u.linears[i], w)
        case ReLU => Ok(w);
      if step.Ok? {
        RunWidthsAppend(u, a[1..], b, step.value);
      }
    }
  }

  /** The layers chain: each takes the width the previous one produces, and
      each batch normalisation matches the width its layer takes. */
  predicate Chained(u: OutputUnit) {
    && |u.linears| > 0
    && |u.batchnorms| == |u.linears|
    && (forall i :: 0 <= i < |u.linears| - 1 ==> u.linears[i].outFeatures == u.linears[i + 1].inFeatures)
    && (forall i :: 0 <= i < |u.batchnorms| && u.batchnorms[i].Some? ==>
          u.batchnorms[i].value == u.linears[i].inFeatures)
  }

  lemma {:induction false} ScheduleFromWidths(u: OutputUnit, i: nat)
    requires Chained(u) && i < |u.linears|
    ensures RunWidths(u, ScheduleFrom(u, i), u.linears[i].inFeatures)
            == Ok(u.linears[|u.linears| - 1].outFeatures)
    decreases |u.linears| - i
  {
    var w := u.linears[i].inFeatures;
    var layer := LayerOps(u, i);
    var bn: seq<Op> := if u.batchnorms[i].Some? then [BatchNorm(i)] else [];
    var relu: seq<Op> := if i < |u.linears| - 1 then [ReLU] else [];
    assert layer == bn + [Dropout, Apply(i)] + relu;
    RunWidthsAppend(u, bn, [Dropout, Apply(i)] + relu, w);
    RunWidthsAppend(u, [Dropout, Apply(i)], relu, w);
    assert RunWidths(u, [Apply(i)], w) == Ok(u.linears[i].outFeatures) by {
      assert [Apply(i)][1..] == [];
    }
    assert RunWidths(u, [Dropout, Apply(i)], w) == Ok(u.linears[i].outFeatures) by {
      assert [Dropout, Apply(i)][1..] == [Apply(i)];
    }
    if u.batchnorms[i].Some? {
      assert RunWidths(u, bn, w) == Ok(w) by {
        assert bn[1..] == [];
      }
    }
    assert bn + [Dropout, Apply(i)] + relu == bn + ([Dropout, Apply(i)] + relu);
    RunWidthsAppend(u, layer, ScheduleFrom(u, i + 1), w);
    if i < |u.linears| - 1 {
      assert RunWidths(u, relu, u.linears[i].outFeatures) == Ok(u.linears[i].outFeatures) by {
        assert relu[1..] == [];
      }
      ScheduleFromWidths(u, i + 1);
    } else {
      assert ScheduleFrom(u, i + 1) == [];
    }
  }

  /** The classifier a network builds accepts the final memory and the
      question, both `dim` wide, and yields exactly `numOutputs` logits: no
      layer of the chain raises a size mismatch. */
  lemma ClassifierWidths(dim: nat, hidden: seq<nat>, numOutputs: nat, withBatchnorm: bool)
    ensures var u := NewOutputUnit(dim, hidden, numOutputs, withBatchnorm);
            OutputWidths(u, dim, dim) == Ok(numOutputs)
  {
    BuiltChained(dim, hidden, numOutputs, withBatchnorm);
    ChainedWidths(NewOutputUnit(dim, hidden, numOutputs, withBatchnorm), dim);
  }

  /** A chained head whose first layer takes the memory and the transformed
      question side by side yields the width of its last layer. */
  lemma ChainedWidths(u: OutputUnit, dim: nat)
    requires Chained(u) && u.questionTransformer == Linear(dim, dim) && u.linears[0].inFeatures == 2 * dim
    ensures OutputWidths(u, dim, dim) == Ok(u.linears[|u.linears| - 1].outFeatures)
  {
    ScheduleFromWidths(u, 0);
  }

  /** The classifier a network builds is chained. */
  lemma BuiltChained(dim: nat, hidden: seq<nat>, numOutputs: nat, withBatchnorm: bool)
    ensures Chained(NewOutputUnit(dim, hidden, numOutputs, withBatchnorm))
  {
    var u := NewOutputUnit(dim, hidden, numOutputs, withBatchnorm);
    assert |u.linears| > 0;
    forall i | 0 <= i < |u.batchnorms| && u.batchnorms[i].Some?
      ensures u.batchnorms[i].value == u.linears[i].inFeatures
    {
    }
  }

  /** In the schedule, every linear layer but the last is followed at once by
      ReLU, and the schedule ends with the last linear layer: the logits are
      raw. */
  lemma {:induction false} ScheduleFromReLU(u: OutputUnit, i: nat)
    requires |u.batchnorms| == |u.linears| && i < |u.linears|
    ensures var ops := ScheduleFrom(u, i);
            && |ops| > 0
            && ops[|ops| - 1] == Apply(|u.linears| - 1)
            && forall p :: 0 <= p < |ops| && ops[p].Apply? && ops[p].layer < |u.linears| - 1 ==>
                 p + 1 < |ops| && ops[p + 1] == ReLU
    decreases |u.linears| - i
  {
    var ops := ScheduleFrom(u, i);
    var layer := LayerOps(u, i);
    var rest := ScheduleFrom(u, i + 1);
    assert ops == layer + rest;
    var k := if u.batchnorms[i].Some? then 1 else 0;
    assert layer[k] == Dropout && layer[k + 1] == Apply(i);
    assert forall p :: 0 <= p < |layer| && layer[p].Apply? ==> p == k + 1;
    if i < |u.linears| - 1 {
      ScheduleFromReLU(u, i + 1);
      assert |layer| == k + 3 && layer[k + 2] == ReLU;
      forall p | 0 <= p < |ops| && ops[p].Apply? && ops[p].layer < |u.linears| - 1
        ensures p + 1 < |ops| && ops[p + 1] == ReLU
      {
        if p >= |layer| {
          assert ops[p] == rest[p - |layer|];
          assert ops[p + 1] == rest[p + 1 - |layer|];
        }
      }
    } else {
      assert rest == [];
      assert ops == layer && |layer| == k + 2;
    }
  }

  lemma ScheduleReLU(u: OutputUnit)
    requires |u.batchnorms| == |u.linears| && |u.linears| > 0
    ensures var ops := Schedule(u);
            && ops[|ops| - 1] == Apply(|u.linears| - 1)
            && forall p :: 0 <= p < |ops| && ops[p].Apply? && ops[p].layer < |u.linears| - 1 ==>
                 p + 1 < |ops| && ops[p + 1] == ReLU
  {
    ScheduleFromReLU(u, 0);
  }

  /** With batch normalisation disabled the schedule contains none, and every
      linear layer of the chain appears in it. */
  lemma {:induction false} ScheduleFromContents(u: OutputUnit, i: nat)
    requires |u.batchnorms| == |u.linears|
    ensures forall j :: i <= j < |u.linears| ==> Apply(j) in ScheduleFrom(u, i)
    ensures forall op :: op in ScheduleFrom(u, i) && op.BatchNorm? ==>
              i <= op.layer < |u.linears| && u.batchnorms[op.layer].Some?
    decreases |u.linears| - i
  {
    if i < |u.linears| {
      ScheduleFromContents(u, i + 1);
      var layer := LayerOps(u, i);
      var rest := ScheduleFrom(u, i + 1);
      assert ScheduleFrom(u, i) == layer + rest;
      var bn: seq<Op> := if u.batchnorms[i].Some? then [BatchNorm(i)] else [];
      var relu: seq<Op> := if i < |u.linears| - 1 then [ReLU] else [];
      assert layer == bn + [Dropout, Apply(i)] + relu;
      forall j | i <= j < |u.linears| ensures Apply(j) in layer + rest {
        if j == i {
          assert Apply(i) in layer;
        } else {
          assert Apply(j) in rest;
        }
      }
      forall op: Op | op in layer + rest && op.BatchNorm?
        ensures i <= op.layer < |u.linears| && u.batchnorms[op.layer].Some?
      {
        if op in layer {
          assert op in bn;
        }
      }
    }
  }

  lemma NoBatchnormWhenDisabled(dim: nat, hidden: seq<nat>, numOutputs: nat)
    ensures var u := NewOutputUnit(dim, hidden, numOutputs, false);
            forall op :: op in Schedule(u) ==> !op.BatchNorm?
  {
    ScheduleFromContents(NewOutputUnit(dim, hidden, numOutputs, false), 0);
  }
}
