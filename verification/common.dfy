/** Failure values for the exceptions the reasoning network can raise, the
    shape of a linear layer, and Python's indexing of sequences. Everything
    numeric about a layer (its weights, its bias) lives outside the model. */
module Common {

  /** The exceptions the modelled code can raise. None of them is caught. */
  datatype Error =
    | IndexError(index: int)                      // list or tensor index out of range
    | KeyError(key: int)                          // lookup of a missing dict key
    | AssertionError(expected: nat, actual: nat)  // a unit's arity assertion
    | ShapeError(expected: nat, actual: nat)      // a layer fed a vector of the wrong width
    | UnboundLocalError                           // the final output read before assignment

  datatype Option<+T> = None | Some(value: T)

  /** A value or the exception that stopped the computation; usable with `:-`. */
  datatype Result<+T> = Ok(value: T) | Err(error: Error) {

    predicate IsFailure() {
      Err?
    }

    function PropagateFailure<U>(): Result<U>
      requires Err?
    {
      Err(error)
    }

    function Extract(): T
      requires Ok?
    {
      value
    }
  }

  /** Shape of an `nn.Linear(inFeatures, outFeatures)` layer. */
  datatype Linear = Linear(inFeatures: nat, outFeatures: nat)

  /** Feeding a vector of `width` features through `l`: the width of the
      output, or the size mismatch the layer raises. */
  function ApplyLinear(l: Linear, width: nat): (r: Result<nat>)
    ensures r.Ok? <==> width == l.inFeatures
    ensures r.Ok? ==> r.value == l.outFeatures
    ensures r.Err? ==> r.error == ShapeError(l.inFeatures, width)
  {
    if width == l.inFeatures then Ok(l.outFeatures) else Err(ShapeError(l.inFeatures, width))
  }

  /** True when Python accepts `k` as an index into a sequence of length `n`. */
  predicate InRange(n: nat, k: int) {
    0 <= k + n && k < n
  }

  /** Python's reading of `s[k]` for a sequence of length `n`: a negative index
      counts from the end, anything outside raises. */
  function ResolveIndex(n: nat, k: int): (r: Result<nat>)
    ensures r.Ok? <==> InRange(n, k)
    ensures r.Ok? ==> r.value < n && (r.value == k || r.value == k + n)
    ensures r.Err? ==> r.error == IndexError(k)
  {
    if 0 <= k < n then Ok(k)
    else if 0 <= k + n && k < 0 then Ok(k + n)
    else Err(IndexError(k))
  }

  /** Resolves every index of `ks` in turn, as a Python loop that indexes a
      sequence of length `n` once per element; the first bad index raises. */
  function ResolveAll(n: nat, ks: seq<int>): (r: Result<seq<nat>>)
    ensures r.Ok? <==> forall i :: 0 <= i < |ks| ==> InRange(n, ks[i])
    ensures r.Ok? ==> |r.value| == |ks|
    ensures r.Ok? ==> forall i :: 0 <= i < |ks| ==> Ok(r.value[i]) == ResolveIndex(n, ks[i])
    ensures r.Err? ==> exists i :: 0 <= i < |ks| && r.error == IndexError(ks[i])
  {
    if |ks| == 0 then Ok([])
    else
      var first :- ResolveIndex(n, ks[0]);
      var rest :- ResolveAll(n, ks[1..]);
      assert forall i :: 1 <= i < |ks| ==> ks[i] == ks[1..][i - 1];
      Ok([first] + rest)
  }

  /** Every index plus one, as in `storage[child + 1]`. */
  function Succ(ks: seq<int>): (r: seq<int>)
    ensures |r| == |ks|
    ensures forall i :: 0 <= i < |ks| ==> r[i] == ks[i] + 1
  {
    seq(|ks|, i requires 0 <= i < |ks| => ks[i] + 1)
  }

  /** The entries of `s` at `slots`, in order (`[s[i] for i in slots]`). */
  function Gather<V>(s: seq<V>, slots: seq<nat>): (r: seq<V>)
    requires forall i :: 0 <= i < |slots| ==> slots[i] < |s|
    ensures |r| == |slots|
    ensures forall i :: 0 <= i < |slots| ==> r[i] == s[slots[i]]
  {
    seq(|slots|, i requires 0 <= i < |slots| => s[slots[i]])
  }
}
