/** `SelectToSliceConversionPattern`: select as step-1 slices and a concat. */
module Select {
  import opened Shapes
  import opened Permutations
  import opened Tensors

  // The positions p >= begin below `limit` with (p - begin) mod stride < length, ascending.
  function Selected(begin: nat, limit: nat, length: nat, stride: nat): (ps: seq<nat>)
    requires stride > 0
  {
    if limit <= begin then []
    else
      var front := Selected(begin, limit - 1, length, stride);
      if (limit - 1 - begin) % stride < length then front + [limit - 1] else front
  }

  lemma {:induction false} SelectedMeaning(begin: nat, limit: nat, length: nat, stride: nat)
    requires stride > 0
    ensures forall p: nat :: p in Selected(begin, limit, length, stride) <==> begin <= p < limit && (p - begin) % stride < length
    ensures Ascending(Selected(begin, limit, length, stride))
    decreases limit
  {
    if limit > begin {
      SelectedMeaning(begin, limit - 1, length, stride);
      var front := Selected(begin, limit - 1, length, stride);
      forall i | 0 <= i < |front|
        ensures front[i] < limit - 1
      {
        assert front[i] in front;
      }
    }
  }

  // One period contributes its first `length` positions, cut at the dimension size.
  lemma {:induction false} SelectedPeriod(begin: nat, h: nat, lo: nat, hi: nat, length: nat, stride: nat)
    requires stride > 0 && 1 <= length <= stride
    requires lo == begin + h * stride && lo <= hi <= lo + stride
    ensures Selected(begin, hi, length, stride) == Selected(begin, lo, length, stride) + Interval(lo, Min(lo + length, hi))
    decreases hi
  {
    if hi > lo {
      SelectedPeriod(begin, h, lo, hi - 1, length, stride);
      InPeriod(h, hi - 1 - begin, hi - 1 - lo, stride);
      if hi - 1 - lo < length {
        assert Interval(lo, hi) == Interval(lo, hi - 1) + [hi - 1];
      }
    }
  }

  lemma InPeriod(h: nat, k: nat, r: nat, stride: nat)
    requires r < stride && k == h * stride + r
    ensures k % stride == r
  {
    MixedRadixUnique(k / stride, k % stride, h, r, stride);
  }

  function Min(a: nat, b: nat): nat {
    if a < b then a else b
  }

  // The last period reaches the end of the dimension.
  lemma SliceCount(size: nat, begin: nat, stride: nat, n: nat)
    requires begin < size && stride > 0 && n == (size - begin + stride - 1) / stride
    ensures n >= 1
    ensures begin + n * stride >= size
    ensures forall i: nat :: i < n ==> begin + i * stride < size
  {
    var x := size - begin + stride - 1;
    assert x == n * stride + x % stride;
    assert n >= 1 by {
      assert n == 0 ==> x < stride;
    }
    forall i: nat | i < n
      ensures begin + i * stride < size
    {
      MulMono(i + 1, n, stride);
      MulDist(i, 1, stride);
    }
  }

  lemma MulMono(a: nat, b: nat, p: nat)
    requires a <= b
    ensures a * p <= b * p
  {}

  // `SelectOp::verify` but for the output size, which `OutputSize` computes.
  predicate SelectVerifies(shape: seq<nat>, dim: int, begin: int, length: int, stride: int) {
    && -|shape| <= dim < |shape|
    && var size := shape[NormalDim(shape, dim)];
    && var step := if stride == 0 then size else stride;
    && 0 <= step <= size
    && 0 <= begin < size
    && 1 <= length <= step
    && begin + length <= size
  }

  function NormalDim(shape: seq<nat>, dim: int): (d: nat)
    requires -|shape| <= dim < |shape|
    ensures d < |shape|
  {
    if dim < 0 then |shape| + dim else dim
  }

  // The output size `SelectOp::verify` expects: as many positions as are selected.
  method OutputSize(size: nat, begin: nat, length: nat, stride: nat) returns (totalLength: nat)
    requires begin < size && stride > 0 && 1 <= length <= stride
    ensures totalLength == |Selected(begin, size, length, stride)|
  {
    hide Selected, UpTo;
    var numSlices := (size - begin + stride - 1) / stride;
    SliceCount(size, begin, stride, numSlices);
    NothingBefore(begin, length, stride);
    totalLength := 0;
    FirstLimit(begin, stride, size, numSlices);
    for i := 0 to numSlices
      invariant totalLength == |Selected(begin, UpTo(begin, i, stride, size), length, stride)|
    {
      NextLimit(begin, i, stride, size);
      SelectedNext(begin, i, size, length, stride);
      var newBegin := begin + i * stride;
      var newEnd := if newBegin + length < size then newBegin + length else size;
      totalLength := totalLength + (newEnd - newBegin);
    }
  }

  lemma FirstLimit(begin: nat, stride: nat, size: nat, n: nat)
    requires begin < size && begin + n * stride >= size
    ensures UpTo(begin, 0, stride, size) == begin && UpTo(begin, n, stride, size) == size
  {}

  // `SelectOp::verify` but for the element types.
  method Verify(input: seq<nat>, output: seq<nat>, dim: int, begin: int, length: int, stride: int) returns (ok: bool)
    ensures ok <==>
      && |input| == |output| && SelectVerifies(input, dim, begin, length, stride)
      && var size := input[NormalDim(input, dim)];
         output[NormalDim(input, dim)] == |Selected(begin, size, length, if stride == 0 then size else stride)|
    ensures ok <==>
      && |input| == |output| && -|input| <= dim < |input|
      && var d := if dim < 0 then dim + |input| else dim;
         && 0 <= stride <= input[d] && 0 <= begin < input[d] && 1 <= length <= input[d] - begin
         && (stride > 0 ==> length <= stride)
         && output[d] == |Selected(begin, input[d], length, if stride == 0 then input[d] else stride)|
  {
    if |input| != |output| {
      return false;
    }
    var d := if dim < 0 then dim + |input| else dim;
    if d < 0 || d >= |input| {
      return false;
    }
    var dimSize := input[d];
    var step: int := if stride == 0 then dimSize else stride;
    if step < 0 || step > dimSize {
      return false;
    }
    if begin < 0 || begin >= dimSize {
      return false;
    }
    if length < 1 || length > step {
      return false;
    }
    if begin + length > dimSize {
      return false;
    }
    var totalLength := OutputSize(dimSize, begin, length, step);
    ok := totalLength == output[d];
  }

  // What the rewrite needs: the verifier's conditions but for the sizes it relates to the dimension's.
  predicate Sliceable(shape: seq<nat>, dim: int, begin: int, length: int, stride: int) {
    && -|shape| <= dim < |shape| && 0 <= begin < shape[NormalDim(shape, dim)]
    && stride >= 0 && length >= 1 && (stride > 0 ==> length <= stride)
  }

  lemma VerifiedIsSliceable(shape: seq<nat>, dim: int, begin: int, length: int, stride: int)
    requires SelectVerifies(shape, dim, begin, length, stride)
    ensures Sliceable(shape, dim, begin, length, stride)
  {}

  // How the rewrite ends: it divides by the stride attribute before anything else.
  datatype Outcome = DividesByZero | Rewritten(bounds: seq<(nat, nat)>, result: Tensor)

  // The rewrite of `matchAndRewrite`: it divides by zero exactly at stride 0, which the verifier
  // admits, and otherwise yields the bounds of the slices along the selected dimension, in order,
  // and the tensor the slices and the concat compute.
  method SelectToSlices(input: Tensor, dim: int, begin: int, length: int, stride: int) returns (outcome: Outcome)
    requires input.Valid() && Sliceable(input.shape, dim, begin, length, stride)
    ensures outcome.DividesByZero? <==> stride == 0
    ensures outcome.Rewritten? ==>
      var d := NormalDim(input.shape, dim);
      && outcome.bounds != [] && Sliced(outcome.bounds, begin, input.shape[d], length, input.shape[d])
      && stride > 0 && Covered(outcome.bounds) == Selected(begin, input.shape[d], length, stride)
      && stride > 0 && ReadsAlong(outcome.result, input, d, Selected(begin, input.shape[d], length, stride))
  {
    if stride == 0 {
      return DividesByZero;
    }
    var bounds, result := SliceByStride(input, dim, begin, length, stride);
    outcome := Rewritten(bounds, result);
  }

  // A verified select of two of four elements at the default stride, which cannot be rewritten.
  method DefaultStrideFails(input: Tensor) returns (outcome: Outcome)
    requires input.Valid() && input.shape == [4]
    ensures SelectVerifies(input.shape, 0, 1, 2, 0) && outcome == DividesByZero
  {
    assert NormalDim([4], 0) == 0;
    VerifiedIsSliceable(input.shape, 0, 1, 2, 0);
    outcome := SelectToSlices(input, 0, 1, 2, 0);
  }

  // The verifier reads stride 0 as the dimension size: one run of `length` positions is selected.
  lemma WholeDimensionStride(shape: seq<nat>, dim: int, begin: int, length: int)
    requires SelectVerifies(shape, dim, begin, length, 0)
    ensures var size := shape[NormalDim(shape, dim)];
      size > 0 && Sliceable(shape, dim, begin, length, size) && Selected(begin, size, length, size) == Interval(begin, begin + length)
  {
    hide Selected;
    var size := shape[NormalDim(shape, dim)];
    SelectedPeriod(begin, 0, begin, size, length, size);
    NothingBefore(begin, length, size);
    assert [] + Interval(begin, begin + length) == Interval(begin, begin + length);
  }

  lemma NothingBefore(begin: nat, length: nat, stride: nat)
    requires stride > 0
    ensures Selected(begin, begin, length, stride) == []
  {}

  // The slices at a stride that is not 0.
  method SliceByStride(input: Tensor, dim: int, begin: nat, length: nat, stride: nat)
      returns (bounds: seq<(nat, nat)>, result: Tensor)
    requires input.Valid() && stride > 0 && Sliceable(input.shape, dim, begin, length, stride)
    ensures bounds != []
    ensures var size := input.shape[NormalDim(input.shape, dim)];
            Sliced(bounds, begin, size, length, size) && Covered(bounds) == Selected(begin, size, length, stride)
    ensures var d := NormalDim(input.shape, dim);
            ReadsAlong(result, input, d, Selected(begin, input.shape[d], length, stride))
  {
    hide Selected, SlicesRead, Covered;
    CoveredNothing();
    var d := if dim < 0 then |input.shape| + dim else dim;
    var size := input.shape[d];
    var numSlices := (size - begin + stride - 1) / stride;
    SliceCount(size, begin, stride, numSlices);
    var begins: seq<nat>, ends: seq<nat>, steps: seq<nat> := FullBounds(input.shape, d);
    bounds := [];
    var slices: seq<Tensor> := [];
    NoSliceRead(input, d, begin, length, stride);
    NothingBefore(begin, length, stride);
    for i := 0 to numSlices
      invariant UnitSteps(input.shape, d, begins, ends, steps)
      invariant |bounds| == |slices| == i
      invariant Sliced(bounds, begin, size, length, UpTo(begin, i, stride, size))
      invariant Covered(bounds) == Selected(begin, UpTo(begin, i, stride, size), length, stride)
      invariant SlicesRead(slices, input, d, begin, length, stride, UpTo(begin, i, stride, size))
    {
      var slice: Tensor, bound: (nat, nat);
      begins, ends, slice, bound := TakeSlice(input, d, begin, length, stride, i, begins, ends, steps, slices, bounds);
      bounds := bounds + [bound];
      slices := slices + [slice];
    }
    result := Join(slices, input, d, begin, length, stride, size);
  }

  // The limit of the positions covered after `i` slices.
  function UpTo(begin: nat, i: nat, stride: nat, size: nat): nat {
    Min(begin + i * stride, size)
  }

  // One iteration of the slicing loop.
  method TakeSlice(input: Tensor, d: nat, begin: nat, length: nat, stride: nat, i: nat,
                   begins0: seq<nat>, ends0: seq<nat>, steps: seq<nat>, ghost slices: seq<Tensor>, ghost bounds: seq<(nat, nat)>)
      returns (begins: seq<nat>, ends: seq<nat>, slice: Tensor, bound: (nat, nat))
    requires input.Valid() && d < |input.shape| && stride > 0 && 1 <= length <= stride && |slices| == i
    requires begin + i * stride < input.shape[d]
    requires UnitSteps(input.shape, d, begins0, ends0, steps)
    requires Sliced(bounds, begin, input.shape[d], length, UpTo(begin, i, stride, input.shape[d]))
    requires Covered(bounds) == Selected(begin, UpTo(begin, i, stride, input.shape[d]), length, stride)
    requires SlicesRead(slices, input, d, begin, length, stride, UpTo(begin, i, stride, input.shape[d]))
    ensures UnitSteps(input.shape, d, begins, ends, steps)
    ensures Sliced(bounds + [bound], begin, input.shape[d], length, UpTo(begin, i + 1, stride, input.shape[d]))
    ensures Covered(bounds + [bound]) == Selected(begin, UpTo(begin, i + 1, stride, input.shape[d]), length, stride)
    ensures SlicesRead(slices + [slice], input, d, begin, length, stride, UpTo(begin, i + 1, stride, input.shape[d]))
  {
    hide Selected, SlicesRead, Slice, SlicedShape, UpTo, Interval, Covered;
    var size := input.shape[d];
    NextLimit(begin, i, stride, size);
    SelectedNext(begin, i, size, length, stride);
    var newBegin := begin + i * stride;
    var newEnd := if newBegin + length < size then newBegin + length else size;
    begins := begins0[d := newBegin];
    ends := ends0[d := newEnd];
    bound := (newBegin, newEnd);
    NextBounds(input.shape, d, begins0, ends0, steps, newBegin, newEnd);
    CoveredAppend(bounds, bound);
    SlicedAppend(bounds, bound, begin, size, length, newBegin, Min(newBegin + stride, size));
    slice := Slice(input, begins, ends, steps);
    NextSliceRead(slices, slice, input, d, begin, length, stride, newBegin, Min(newBegin + stride, size), begins, ends, steps);
  }

  lemma NextLimit(begin: nat, i: nat, stride: nat, size: nat)
    requires begin + i * stride < size
    ensures UpTo(begin, i, stride, size) == begin + i * stride
    ensures UpTo(begin, i + 1, stride, size) == Min(begin + i * stride + stride, size)
  {
    MulDist(i, 1, stride);
  }

  lemma NextBounds(shape: seq<nat>, d: nat, begins: seq<nat>, ends: seq<nat>, steps: seq<nat>, lo: nat, hi: nat)
    requires d < |shape| && UnitSteps(shape, d, begins, ends, steps) && lo <= hi <= shape[d]
    ensures UnitSteps(shape, d, begins[d := lo], ends[d := hi], steps)
    ensures SliceBounds(shape, begins[d := lo], ends[d := hi], steps)
  {}

  lemma SlicedAppend(bounds: seq<(nat, nat)>, b: (nat, nat), begin: nat, size: nat, length: nat, lo: nat, hi: nat)
    requires Sliced(bounds, begin, size, length, lo)
    requires begin <= lo <= b.0 < b.1 <= size && b.1 - b.0 <= length && b.1 <= hi
    ensures Sliced(bounds + [b], begin, size, length, hi)
  {}

  // The result: the concatenation, or the only slice.
  method Join(slices: seq<Tensor>, input: Tensor, d: nat, begin: nat, length: nat, stride: nat, ghost limit: nat)
      returns (result: Tensor)
    requires slices != [] && stride > 0 && SlicesRead(slices, input, d, begin, length, stride, limit)
    ensures ReadsAlong(result, input, d, Selected(begin, limit, length, stride))
  {
    hide ReadsAlong, Selected;
    if |slices| > 1 {
      result := Concat(slices, input.shape, d);
    } else {
      result := slices[0];
    }
  }

  // Begin 0, end the dimension size and step 1 everywhere; placeholders on the selected dimension.
  method FullBounds(shape: seq<nat>, dim: nat) returns (begins: seq<nat>, ends: seq<nat>, steps: seq<nat>)
    ensures UnitSteps(shape, dim, begins, ends, steps)
  {
    begins, ends, steps := [], [], [];
    for i := 0 to |shape|
      invariant |begins| == |ends| == |steps| == i
      invariant forall k :: 0 <= k < i ==> steps[k] == 1 && (k != dim ==> begins[k] == 0 && ends[k] == shape[k])
    {
      steps := steps + [1];
      begins := begins + [0];
      ends := ends + [if i == dim then 0 else shape[i]];
    }
  }

  // Non-empty, disjoint, ascending intervals inside the dimension and below `limit`.
  predicate Sliced(bounds: seq<(nat, nat)>, begin: nat, size: nat, length: nat, limit: nat) {
    && (forall i :: 0 <= i < |bounds| ==>
          begin <= bounds[i].0 < bounds[i].1 <= size && bounds[i].1 - bounds[i].0 <= length && bounds[i].1 <= limit)
    && forall i, j :: 0 <= i < j < |bounds| ==> bounds[i].1 <= bounds[j].0
  }

  // The positions of the slices, one slice after the other.
  function Covered(bounds: seq<(nat, nat)>): seq<nat>
    requires forall i :: 0 <= i < |bounds| ==> bounds[i].0 <= bounds[i].1
  {
    if bounds == [] then [] else Covered(bounds[..|bounds| - 1]) + Interval(bounds[|bounds| - 1].0, bounds[|bounds| - 1].1)
  }

  lemma CoveredNothing()
    ensures Covered([]) == []
  {}

  lemma CoveredAppend(bounds: seq<(nat, nat)>, b: (nat, nat))
    requires (forall i :: 0 <= i < |bounds| ==> bounds[i].0 <= bounds[i].1) && b.0 <= b.1
    ensures forall i :: 0 <= i < |bounds| + 1 ==> (bounds + [b])[i].0 <= (bounds + [b])[i].1
    ensures Covered(bounds + [b]) == Covered(bounds) + Interval(b.0, b.1)
  {
    assert (bounds + [b])[..|bounds|] == bounds;
  }

  // Those are the positions from the begin of some slice up to its end.
  lemma {:induction false} CoveredMembers(bounds: seq<(nat, nat)>, p: nat)
    requires forall i :: 0 <= i < |bounds| ==> bounds[i].0 <= bounds[i].1
    ensures p in Covered(bounds) <==> exists i :: 0 <= i < |bounds| && bounds[i].0 <= p < bounds[i].1
  {
    if bounds != [] {
      var n := |bounds| - 1;
      CoveredMembers(bounds[..n], p);
      InInterval(bounds[n].0, bounds[n].1, p);
      hide Interval;
      assert p in Covered(bounds) <==> p in Covered(bounds[..n]) || p in Interval(bounds[n].0, bounds[n].1);
      hide Covered;
      SomeBound(bounds, p);
    }
  }

  lemma InInterval(lo: nat, hi: nat, p: nat)
    requires lo <= hi
    ensures p in Interval(lo, hi) <==> lo <= p < hi
  {
    if lo <= p < hi {
      assert Interval(lo, hi)[p - lo] == p;
    }
  }

  lemma SomeBound(bounds: seq<(nat, nat)>, p: nat)
    requires bounds != []
    ensures var n := |bounds| - 1;
      (exists i :: 0 <= i < |bounds| && bounds[i].0 <= p < bounds[i].1) <==>
        bounds[n].0 <= p < bounds[n].1 || exists i :: 0 <= i < |bounds[..n]| && bounds[..n][i].0 <= p < bounds[..n][i].1
  {
    var n := |bounds| - 1;
    if i :| 0 <= i < n && bounds[i].0 <= p < bounds[i].1 {
      assert bounds[..n][i] == bounds[i];
    }
  }

  predicate UnitSteps(shape: seq<nat>, dim: nat, begins: seq<nat>, ends: seq<nat>, steps: seq<nat>) {
    && |begins| == |ends| == |steps| == |shape|
    && forall k :: 0 <= k < |shape| ==> steps[k] == 1 && (k != dim ==> begins[k] == 0 && ends[k] == shape[k])
  }

  // The slices so far, concatenated or alone, read exactly the selected positions below `limit`.
  ghost predicate SlicesRead(slices: seq<Tensor>, input: Tensor, dim: nat, begin: nat, length: nat, stride: nat, limit: nat)
    requires stride > 0
  {
    && dim < |input.shape| && Stackable(slices, input.shape, dim)
    && ReadsAlong(Concat(slices, input.shape, dim), input, dim, Selected(begin, limit, length, stride))
    && (|slices| == 1 ==> ReadsAlong(slices[0], input, dim, Selected(begin, limit, length, stride)))
  }

  lemma NoSliceRead(t: Tensor, dim: nat, begin: nat, length: nat, stride: nat)
    requires t.Valid() && dim < |t.shape| && stride > 0
    ensures SlicesRead([], t, dim, begin, length, stride, begin)
  {
    assert TotalDim([], dim) == 0;
  }

  lemma SelectedNext(begin: nat, i: nat, size: nat, length: nat, stride: nat)
    requires stride > 0 && 1 <= length <= stride && begin + i * stride < size
    ensures (i + 1) * stride == i * stride + stride
    ensures var lo := begin + i * stride;
            Selected(begin, Min(lo + stride, size), length, stride)
              == Selected(begin, lo, length, stride) + Interval(lo, Min(lo + length, size))
    ensures i == 0 ==> Selected(begin, begin + i * stride, length, stride) == []
  {
    hide Selected;
    var lo := begin + i * stride;
    MulDist(i, 1, stride);
    SelectedPeriod(begin, i, lo, Min(lo + stride, size), length, stride);
    NothingBefore(begin, length, stride);
  }

  lemma NextSliceRead(slices: seq<Tensor>, slice: Tensor, input: Tensor, dim: nat, begin: nat, length: nat, stride: nat,
                      lo: nat, limit: nat, begins: seq<nat>, ends: seq<nat>, steps: seq<nat>)
    requires input.Valid() && stride > 0 && dim < |input.shape|
    requires SliceBounds(input.shape, begins, ends, steps) && slice == Slice(input, begins, ends, steps)
    requires SlicesRead(slices, input, dim, begin, length, stride, lo)
    requires UnitSteps(input.shape, dim, begins, ends, steps)
    requires Selected(begin, limit, length, stride) == Selected(begin, lo, length, stride) + Interval(begins[dim], ends[dim])
    requires slices == [] ==> Selected(begin, lo, length, stride) == []
    ensures SlicesRead(slices + [slice], input, dim, begin, length, stride, limit)
  {
    hide Lin, Prod, At, Selected, Interval, Slice, SlicedShape, Concat, TotalDim;
    var added := Interval(begins[dim], ends[dim]);
    SliceReads(input, dim, begins, ends, steps);
    ConcatReads(slices, slice, input, dim, Selected(begin, lo, length, stride), added);
    if slices == [] {
      assert [] + added == added;
    }
  }
}
