/** `GatherToEmbeddingConversionPattern`: gather as permute, flatten, a stride matmul on the start
    indices, embedding, reshape and permute. */
module Gather {
  import opened Shapes
  import opened Permutations
  import opened Tensors
  import opened Wrappers

  datatype GatherDims = GatherDims(
    offsetDims: seq<nat>, collapsedSliceDims: seq<nat>, operandBatchingDims: seq<nat>,
    startIndicesBatchingDims: seq<nat>, startIndexMap: seq<nat>, indexVectorDim: nat, sliceSizes: seq<nat>)

  // ---- gather as the StableHLO specification defines it, without batching dimensions ----

  // The start indices' shape without the index vector dimension.
  function BatchSizes(start: seq<nat>, indexVectorDim: nat): seq<nat> {
    if indexVectorDim < |start| then start[..indexVectorDim] + start[indexVectorDim + 1..] else start
  }

  // The constraints section 'gather' of the StableHLO specification puts on the op.
  ghost predicate WellFormed(operand: Tensor, start: Tensor, result: seq<nat>, g: GatherDims) {
    var rank := |operand.shape|;
    var n := |g.startIndexMap|;
    && operand.Valid() && start.Valid()
    && |g.sliceSizes| == rank
    && (forall d :: 0 <= d < rank ==> g.sliceSizes[d] <= operand.shape[d])
    && g.indexVectorDim <= |start.shape|
    && n == (if g.indexVectorDim < |start.shape| then start.shape[g.indexVectorDim] else 1)
    && Distinct(g.startIndexMap) && InRange(g.startIndexMap, rank)
    && Ascending(g.offsetDims) && InRange(g.offsetDims, |result|)
    && Ascending(g.collapsedSliceDims) && InRange(g.collapsedSliceDims, rank)
    && (forall d :: d in g.collapsedSliceDims ==> d < rank && g.sliceSizes[d] <= 1)
    && Apply(result, Others(|result|, g.offsetDims)) == BatchSizes(start.shape, g.indexVectorDim)
    && Apply(result, g.offsetDims) == Apply(g.sliceSizes, Others(rank, g.collapsedSliceDims))
  }

  // Where component k of the start index of batch `b` is stored.
  function StartPosition(b: seq<nat>, indexVectorDim: nat, startRank: nat, k: nat): seq<nat>
    requires indexVectorDim < startRank ==> |b| == startRank - 1
  {
    if indexVectorDim < startRank then b[..indexVectorDim] + [k] + b[indexVectorDim..] else b
  }

  function Clamp(x: int, hi: nat): nat {
    if x < 0 then 0 else if x > hi then hi else x
  }

  ghost predicate IndexParts(operand: Tensor, start: Tensor, g: GatherDims, b: seq<nat>, o: seq<nat>) {
    && |operand.shape| == |g.sliceSizes|
    && (forall d :: 0 <= d < |operand.shape| ==> g.sliceSizes[d] <= operand.shape[d])
    && (g.indexVectorDim < |start.shape| ==> |b| == |start.shape| - 1)
    && |o| == |Others(|operand.shape|, g.collapsedSliceDims)|
  }

  // The start index of batch `b` on operand dimension d, clamped so that the slice fits.
  function FullStart(operand: Tensor, start: Tensor, g: GatherDims, b: seq<nat>, o: seq<nat>, d: nat): nat
    requires IndexParts(operand, start, g, b, o) && d < |operand.shape|
  {
    if d in g.startIndexMap then
      Clamp(At(start, StartPosition(b, g.indexVectorDim, |start.shape|, IndexOf(g.startIndexMap, d))),
            operand.shape[d] - g.sliceSizes[d])
    else 0
  }

  // The position inside the slice on operand dimension d.
  function FullOffset(operand: Tensor, start: Tensor, g: GatherDims, b: seq<nat>, o: seq<nat>, d: nat): nat
    requires IndexParts(operand, start, g, b, o) && d < |operand.shape|
  {
    OthersMembers(|operand.shape|, g.collapsedSliceDims);
    if d in g.collapsedSliceDims then 0 else o[IndexOf(Others(|operand.shape|, g.collapsedSliceDims), d)]
  }

  function OperandIndex(operand: Tensor, start: Tensor, g: GatherDims, b: seq<nat>, o: seq<nat>): (src: seq<nat>)
    requires IndexParts(operand, start, g, b, o)
    ensures |src| == |operand.shape|
  {
    seq(|operand.shape|, d requires 0 <= d < |operand.shape| =>
      FullStart(operand, start, g, b, o, d) + FullOffset(operand, start, g, b, o, d))
  }

  // `t` is gather: the result element at batch index b and offset index o is the operand element at
  // the clamped start index plus the offset.
  ghost predicate IsGather(t: Tensor, operand: Tensor, start: Tensor, result: seq<nat>, g: GatherDims)
    requires WellFormed(operand, start, result, g)
  {
    && t.Valid() && t.shape == result
    && forall idx :: InShape(idx, result) ==> IsGatherCell(t, operand, start, result, g, idx)
  }

  ghost predicate IsGatherCell(t: Tensor, operand: Tensor, start: Tensor, result: seq<nat>, g: GatherDims, idx: seq<nat>)
    requires WellFormed(operand, start, result, g) && |idx| == |result|
  {
    ResultParts(operand, start, result, g);
    var src := OperandIndex(operand, start, g, Apply(idx, Others(|result|, g.offsetDims)), Apply(idx, g.offsetDims));
    InShape(src, operand.shape) && At(t, idx) == At(operand, src)
  }

  lemma ResultParts(operand: Tensor, start: Tensor, result: seq<nat>, g: GatherDims)
    requires WellFormed(operand, start, result, g)
    ensures |Others(|result|, g.offsetDims)| == |BatchSizes(start.shape, g.indexVectorDim)|
    ensures g.indexVectorDim < |start.shape| ==> |Others(|result|, g.offsetDims)| == |start.shape| - 1
    ensures |g.offsetDims| == |Others(|operand.shape|, g.collapsedSliceDims)|
  {
    assert |Apply(result, Others(|result|, g.offsetDims))| == |BatchSizes(start.shape, g.indexVectorDim)|;
    assert |Apply(result, g.offsetDims)| == |Apply(g.sliceSizes, Others(|operand.shape|, g.collapsedSliceDims))|;
  }

  // Every start index component lies inside its operand dimension.
  ghost predicate InBounds(operand: Tensor, start: Tensor, g: GatherDims)
    requires InRange(g.startIndexMap, |operand.shape|)
  {
    forall b, k :: InShape(b, BatchSizes(start.shape, g.indexVectorDim)) && 0 <= k < |g.startIndexMap| ==>
      g.indexVectorDim <= |start.shape| &&
      0 <= At(start, StartPosition(b, g.indexVectorDim, |start.shape|, k)) < operand.shape[g.startIndexMap[k]]
  }

  // ---- the legality check ----

  ghost predicate BasicLegality(inputShape: seq<nat>, startShape: seq<nat>, g: GatherDims)
    requires |g.sliceSizes| == |inputShape|
  {
    && !(|g.startIndexMap| > 1 && |startShape| == 1)
    && g.operandBatchingDims == [] && g.startIndicesBatchingDims == []
    && g.startIndexMap == g.collapsedSliceDims
    && forall d :: 0 <= d < |inputShape| && d !in g.startIndexMap ==> g.sliceSizes[d] == inputShape[d]
  }

  // `checkBasicLegality`. Collapsed slice dimensions are sorted in a well-formed op.
  method CheckBasicLegality(inputShape: seq<nat>, startShape: seq<nat>, g: GatherDims) returns (legal: bool)
    requires |g.sliceSizes| == |inputShape| && Ascending(g.collapsedSliceDims) && InRange(g.collapsedSliceDims, |inputShape|)
    ensures legal <==> BasicLegality(inputShape, startShape, g)
    ensures legal <==>
      && (|g.startIndexMap| <= 1 || |startShape| != 1)
      && |g.operandBatchingDims| == 0 && |g.startIndicesBatchingDims| == 0
      && |g.startIndexMap| == |g.collapsedSliceDims|
      && (forall i :: 0 <= i < |g.startIndexMap| ==> g.startIndexMap[i] == g.collapsedSliceDims[i])
      && (forall d :: 0 <= d < |inputShape| ==> d in g.startIndexMap || g.sliceSizes[d] == inputShape[d])
  {
    if |g.startIndexMap| > 1 && |startShape| == 1 {
      return false;
    }
    if g.operandBatchingDims != [] || g.startIndicesBatchingDims != [] {
      return false;
    }
    if |g.collapsedSliceDims| != |g.startIndexMap| {
      return false;
    }
    for i := 0 to |g.startIndexMap|
      invariant g.startIndexMap[..i] == g.collapsedSliceDims[..i]
    {
      if g.startIndexMap[i] != g.collapsedSliceDims[i] {
        return false;
      }
    }
    assert g.startIndexMap == g.collapsedSliceDims;
    var startIndexMapIndex := 0;
    for inputShapeIndex := 0 to |inputShape|
      invariant 0 <= startIndexMapIndex <= |g.startIndexMap|
      invariant forall k :: 0 <= k < startIndexMapIndex ==> g.startIndexMap[k] < inputShapeIndex
      invariant forall k :: startIndexMapIndex <= k < |g.startIndexMap| ==> inputShapeIndex <= g.startIndexMap[k]
      invariant forall d :: 0 <= d < inputShapeIndex && d !in g.startIndexMap ==> g.sliceSizes[d] == inputShape[d]
    {
      if startIndexMapIndex < |g.startIndexMap| && g.startIndexMap[startIndexMapIndex] == inputShapeIndex {
        startIndexMapIndex := startIndexMapIndex + 1;
      } else if g.sliceSizes[inputShapeIndex] != inputShape[inputShapeIndex] {
        return false;
      }
    }
    return true;
  }

  // ---- the rewrite ----

  // `permuteInput` and `reshapeInput`: the indexed dimensions first, flattened to the rows of a
  // matrix, the others flattened to its columns.
  method EmbeddingWeights(operand: Tensor, startIndexMap: seq<nat>) returns (permutedShape: seq<nat>, weights: Tensor)
    requires operand.Valid() && Distinct(startIndexMap) && InRange(startIndexMap, |operand.shape|)
    ensures IndexedFirst(operand, startIndexMap)
    ensures permutedShape == Apply(operand.shape, startIndexMap + Others(|operand.shape|, startIndexMap))
    ensures weights == Flattened(operand, [], startIndexMap, Others(|operand.shape|, startIndexMap))
  {
    hide Prod, Permute, Flattened;
    var others := Others(|operand.shape|, startIndexMap);
    var inputPermutation := startIndexMap + others;
    WeightsShape(operand, startIndexMap);
    var inputPermuted := Permute(operand, inputPermutation);
    permutedShape := inputPermuted.shape;
    var n := |startIndexMap|;
    weights := Reshape(inputPermuted, [Prod(permutedShape[..n]), Prod(permutedShape[n..])]);
  }

  lemma WeightsShape(operand: Tensor, startIndexMap: seq<nat>)
    requires operand.Valid() && Distinct(startIndexMap) && InRange(startIndexMap, |operand.shape|)
    ensures IndexedFirst(operand, startIndexMap)
    ensures var others := Others(|operand.shape|, startIndexMap);
            var n := |startIndexMap|;
            && IsPerm(startIndexMap + others) && |startIndexMap + others| == |operand.shape|
            && Apply(operand.shape, startIndexMap + others)[..n] == Apply(operand.shape, startIndexMap)
            && Apply(operand.shape, startIndexMap + others)[n..] == Apply(operand.shape, others)
            && Prod([Prod(Apply(operand.shape, startIndexMap)), Prod(Apply(operand.shape, others))])
               == Prod(Apply(operand.shape, startIndexMap + others))
            && Flattened(operand, [], startIndexMap, others)
               == Tensor([Prod(Apply(operand.shape, startIndexMap)), Prod(Apply(operand.shape, others))],
                         Permute(operand, startIndexMap + others).data)
  {
    hide Prod, Permute, Flattened;
    IndexedFirstGroups(operand, startIndexMap);
    var others := Others(|operand.shape|, startIndexMap);
    ApplyConcat(operand.shape, startIndexMap, others);
    FlattenedWithoutBatch(operand, startIndexMap, others);
  }

  ghost predicate IndexedFirst(operand: Tensor, startIndexMap: seq<nat>) {
    Groups(operand, [], startIndexMap, Others(|operand.shape|, startIndexMap))
  }

  lemma IndexedFirstGroups(operand: Tensor, startIndexMap: seq<nat>)
    requires operand.Valid() && Distinct(startIndexMap) && InRange(startIndexMap, |operand.shape|)
    ensures IndexedFirst(operand, startIndexMap)
  {
    hide Others;
    var others := Others(|operand.shape|, startIndexMap);
    OthersCompletePermutation(|operand.shape|, startIndexMap);
    assert [] + startIndexMap + others == startIndexMap + others;
  }

  // The strides the start indices are multiplied with: row-major over the indexed dimensions.
  method IndexStrides(permutedShape: seq<nat>, n: nat) returns (strides: seq<int>)
    requires n <= |permutedShape|
    ensures |strides| == n
    ensures forall i :: 0 <= i < n ==> strides[i] == Prod(permutedShape[..n][i + 1..])
  {
    hide Prod;
    var a := new int[n];
    var dimensionOffset := 1;
    var i := n;
    ghost var sizes := permutedShape[..n];
    ProdEmpty();
    assert sizes[n..] == [];
    while i > 0
      invariant 0 <= i <= n
      invariant dimensionOffset == Prod(sizes[i..])
      invariant forall j :: i <= j < n ==> a[j] == Prod(sizes[j + 1..])
    {
      i := i - 1;
      a[i] := dimensionOffset;
      assert sizes[i..] == [sizes[i]] + sizes[i + 1..];
      ProdCons(sizes[i], sizes[i + 1..]);
      dimensionOffset := dimensionOffset * permutedShape[i];
    }
    strides := a[..];
  }

  // The start index of batch `b`, one component per indexed dimension.
  function StartVector(start: Tensor, g: GatherDims, b: seq<nat>): (v: seq<int>)
    requires g.indexVectorDim < |start.shape| ==> |b| == |start.shape| - 1
    ensures |v| == |g.startIndexMap|
  {
    seq(|g.startIndexMap|, k requires 0 <= k < |g.startIndexMap| => At(start, StartPosition(b, g.indexVectorDim, |start.shape|, k)))
  }

  // The row the rewrite computes for batch `b`: the scalar product of its start index with the strides.
  function Row(shape: seq<nat>, start: Tensor, g: GatherDims, b: seq<nat>): int
    requires InRange(g.startIndexMap, |shape|)
    requires g.indexVectorDim < |start.shape| ==> |b| == |start.shape| - 1
  {
    Sum(|g.startIndexMap|, StrideTerm(Apply(shape, g.startIndexMap), StartVector(start, g, b)))
  }

  // `indices` holds, at the row-major position of every batch index, the flattened start index.
  ghost predicate HoldsRows(indices: Tensor, operand: Tensor, start: Tensor, g: GatherDims)
    requires InRange(g.startIndexMap, |operand.shape|)
  {
    var bs := BatchSizes(start.shape, g.indexVectorDim);
    && indices.Valid()
    && |indices.data| == Prod(bs)
    && forall b :: InShape(b, bs) ==> HoldsRow(indices, operand, start, g, b)
  }

  ghost predicate HoldsRow(indices: Tensor, operand: Tensor, start: Tensor, g: GatherDims, b: seq<nat>)
    requires InRange(g.startIndexMap, |operand.shape|)
    requires InShape(b, BatchSizes(start.shape, g.indexVectorDim))
  {
    var bs := BatchSizes(start.shape, g.indexVectorDim);
    Lin(bs, b) < |indices.data| && indices.data[Lin(bs, b)] == Row(operand.shape, start, g, b)
  }

  // With one indexed dimension the start indices are already the rows.
  lemma OneIndexHoldsRows(operand: Tensor, start: Tensor, g: GatherDims)
    requires start.Valid() && InRange(g.startIndexMap, |operand.shape|)
    requires |g.startIndexMap| == 1 && g.indexVectorDim <= |start.shape|
    requires g.indexVectorDim < |start.shape| ==> start.shape[g.indexVectorDim] == 1
    ensures HoldsRows(start, operand, start, g)
  {
    hide Lin, Prod, At;
    var bs := BatchSizes(start.shape, g.indexVectorDim);
    OneIndexSize(start.shape, g.indexVectorDim);
    forall b | InShape(b, bs)
      ensures HoldsRow(start, operand, start, g, b)
    {
      OneIndexPosition(start.shape, g.indexVectorDim, b);
      OneIndexRow(operand, start, g, b);
    }
  }

  lemma OneIndexSize(shape: seq<nat>, v: nat)
    requires v <= |shape| && (v < |shape| ==> shape[v] == 1)
    ensures Prod(BatchSizes(shape, v)) == Prod(shape)
  {
    hide Prod;
    if v < |shape| {
      SplitAround(shape, v);
      UnitDimProd(shape[..v], shape[v + 1..]);
    }
  }

  lemma OneIndexPosition(shape: seq<nat>, v: nat, b: seq<nat>)
    requires v <= |shape| && (v < |shape| ==> shape[v] == 1)
    requires InShape(b, BatchSizes(shape, v))
    ensures InShape(StartPosition(b, v, |shape|, 0), shape)
    ensures Lin(shape, StartPosition(b, v, |shape|, 0)) == Lin(BatchSizes(shape, v), b)
  {
    hide Lin, Prod;
    if v < |shape| {
      var s, t := shape[..v], shape[v + 1..];
      assert shape == s + [1] + t;
      InShapeSplit(s, t, b);
      UnitDimLin(s, b[..v], t, b[v..]);
    }
  }

  lemma OneIndexRow(operand: Tensor, start: Tensor, g: GatherDims, b: seq<nat>)
    requires start.Valid() && InRange(g.startIndexMap, |operand.shape|) && |g.startIndexMap| == 1
    requires g.indexVectorDim <= |start.shape|
    requires InShape(b, BatchSizes(start.shape, g.indexVectorDim))
    requires InShape(StartPosition(b, g.indexVectorDim, |start.shape|, 0), start.shape)
    requires Lin(start.shape, StartPosition(b, g.indexVectorDim, |start.shape|, 0)) == Lin(BatchSizes(start.shape, g.indexVectorDim), b)
    ensures HoldsRow(start, operand, start, g, b)
  {
    hide Prod, Lin, Sum, StrideTerm, Apply;
    OneStride(Apply(operand.shape, g.startIndexMap), StartVector(start, g, b));
  }

  lemma OneStride(shape: seq<nat>, idx: seq<int>)
    requires |shape| == |idx| == 1
    ensures Sum(1, StrideTerm(shape, idx)) == idx[0]
  {
    hide Prod;
    var f := StrideTerm(shape, idx);
    assert shape[1..] == [];
    ProdEmpty();
    assert Sum(1, f) == Sum(0, f) + f(0);
  }

  function StrideTerm(shape: seq<nat>, idx: seq<int>): nat -> int {
    (k: nat) => if k < |shape| && k < |idx| then idx[k] * Prod(shape[k + 1..]) else 0
  }

  lemma StrideTermTail(shape: seq<nat>, idx: seq<nat>, k: nat)
    requires |shape| == |idx| && k + 1 < |shape|
    ensures StrideTerm(shape, idx)(1 + k) == StrideTerm(shape[1..], idx[1..])(k)
  {
    hide Prod;
    assert shape[1..][k + 1..] == shape[1 + k + 1..];
  }

  lemma StrideSumFirst(shape: seq<nat>, idx: seq<nat>)
    requires |shape| == |idx| > 0
    ensures Sum(|shape|, StrideTerm(shape, idx))
         == idx[0] * Prod(shape[1..]) + Sum(|shape| - 1, StrideTerm(shape[1..], idx[1..]))
  {
    hide Prod;
    var f := StrideTerm(shape, idx);
    var n := |shape| - 1;
    assert Sum(1, f) == Sum(0, f) + f(0);
    hide Sum;
    forall k: nat | k < n
      ensures Offset(1, f)(k) == StrideTerm(shape[1..], idx[1..])(k)
    {
      StrideTermTail(shape, idx, k);
    }
    SumEqual(n, Offset(1, f), StrideTerm(shape[1..], idx[1..]));
    SumShift(1, n, f);
  }

  // A row-major position is the scalar product of the index with the strides.
  lemma {:induction false} LinIsStrideSum(shape: seq<nat>, idx: seq<nat>)
    requires InShape(idx, shape)
    ensures Sum(|shape|, StrideTerm(shape, idx)) == Lin(shape, idx)
  {
    hide Sum, Prod, StrideTerm;
    if shape == [] {
      SumNone(StrideTerm(shape, idx));
    } else {
      StrideSumFirst(shape, idx);
      LinIsStrideSum(shape[1..], idx[1..]);
    }
  }

  lemma SumNone(f: nat -> int)
    ensures Sum(0, f) == 0
  {}

  // Moving the index vector dimension last leaves the batch sizes in order before it.
  lemma IndexDimLast(shape: seq<nat>, v: nat)
    requires v < |shape|
    ensures var p := Others(|shape|, [v]) + [v];
            IsPerm(p) && |p| == |shape| && Apply(shape, p) == BatchSizes(shape, v) + [shape[v]]
  {
    OthersCompletePermutation(|shape|, [v]);
    hide Others, Apply, Interval, IsPerm;
    OtherSizes(shape, v);
    ApplyConcat(shape, Others(|shape|, [v]), [v]);
    ApplyOne(shape, v);
  }

  lemma OtherSizes(shape: seq<nat>, v: nat)
    requires v < |shape|
    ensures Apply(shape, Others(|shape|, [v])) == BatchSizes(shape, v)
  {
    hide Others, Apply, Interval;
    OthersOfOne(|shape|, v);
    ApplyConcat(shape, Interval(0, v), Interval(v + 1, |shape|));
    ApplyInterval(shape, 0, v);
    ApplyInterval(shape, v + 1, |shape|);
  }

  lemma ApplyOne(shape: seq<nat>, v: nat)
    requires v < |shape|
    ensures Apply(shape, [v]) == [shape[v]]
  {}

  lemma IndexDimLastSource(shape: seq<nat>, v: nat, b: seq<nat>, k: nat)
    requires v < |shape| && |b| == |shape| - 1
    ensures var p := Others(|shape|, [v]) + [v];
            IsPerm(p) && |p| == |b + [k]| && Scatter(p, b + [k]) == StartPosition(b, v, |shape|, k)
  {
    IndexDimLast(shape, v);
    OthersOfOne(|shape|, v);
    var p := Others(|shape|, [v]) + [v];
    var idx := StartPosition(b, v, |shape|, k);
    hide Others, IsPerm, Scatter, Interval, StartPosition;
    forall i | 0 <= i < |p|
      ensures p[i] < |idx| && idx[p[i]] == (b + [k])[i]
    {
      StartPositionReads(b, v, |shape|, k, i);
    }
    ScatterUnique(p, b + [k], idx);
  }

  lemma StartPositionReads(b: seq<nat>, v: nat, n: nat, k: nat, i: nat)
    requires v < n == |b| + 1 && i < n
    ensures var p := Interval(0, v) + Interval(v + 1, n) + [v];
            var idx := StartPosition(b, v, n, k);
            |p| == |idx| == n && p[i] < n && idx[p[i]] == (b + [k])[i]
  {}

  lemma PairProd(n: nat)
    ensures Prod([n, 1]) == n
  {
    assert [n, 1] == [n] + [1];
    ProdOne(n);
    ProdAppend([n], 1);
  }

  // One component of the start index, read from the permuted start indices.
  lemma PermutedStartCell(start: Tensor, v: nat, b: seq<nat>, k: nat)
    requires start.Valid() && v < |start.shape| && InShape(b, BatchSizes(start.shape, v)) && k < start.shape[v]
    ensures var p := Others(|start.shape|, [v]) + [v];
            IsPerm(p) && |p| == |start.shape|
            && At(Permute(start, p), b + [k]) == At(start, StartPosition(b, v, |start.shape|, k))
  {
    hide At, Permute, Scatter, Others;
    IndexDimLast(start.shape, v);
    IndexDimLastSource(start.shape, v, b, k);
    InShapeConcat(BatchSizes(start.shape, v), b, [start.shape[v]], [k]);
    AtPermute(start, Others(|start.shape|, [v]) + [v], b + [k]);
  }

  lemma ColumnCell(constant: Tensor, n: nat, k: nat)
    requires constant.shape == [n, 1] && |constant.data| == n && k < n
    ensures At(constant, [k, 0]) == constant.data[k]
  {
    PairLin(n, 1, k, 0);
  }

  // The operands of the stride matmul: the start indices with the index vector dimension last, and
  // the strides of the indexed dimensions as a column.
  ghost predicate StrideOperands(operand: Tensor, start: Tensor, g: GatherDims, permuted: Tensor, constant: Tensor) {
    && start.Valid() && g.indexVectorDim < |start.shape| && |start.shape| > 1
    && start.shape[g.indexVectorDim] == |g.startIndexMap|
    && InRange(g.startIndexMap, |operand.shape|)
    && IsPerm(Others(|start.shape|, [g.indexVectorDim]) + [g.indexVectorDim])
    && |Others(|start.shape|, [g.indexVectorDim]) + [g.indexVectorDim]| == |start.shape|
    && permuted == Permute(start, Others(|start.shape|, [g.indexVectorDim]) + [g.indexVectorDim])
    && permuted.shape == BatchSizes(start.shape, g.indexVectorDim) + [|g.startIndexMap|]
    && constant.Valid() && constant.shape == [|g.startIndexMap|, 1] && |constant.data| == |g.startIndexMap|
    && forall k :: 0 <= k < |g.startIndexMap| ==> constant.data[k] == Prod(Apply(operand.shape, g.startIndexMap)[k + 1..])
  }

  lemma StrideMatmulTerm(permuted: Tensor, constant: Tensor, b: seq<nat>, k: nat, sizes: seq<nat>, v: seq<int>)
    requires b != [] && |constant.shape| == 2 && k < |v| == |sizes|
    requires At(permuted, b + [k]) == v[k] && At(constant, [k, 0]) == Prod(sizes[k + 1..])
    ensures MatmulTerm(permuted, constant, b[..|b| - 1], b[|b| - 1], 0)(k) == StrideTerm(sizes, v)(k)
  {
    hide At, Prod;
    assert b[..|b| - 1] + [b[|b| - 1], k] == b + [k] && [] + [k, 0] == [k, 0];
  }

  // The product of the permuted start indices with the stride column holds the flattened rows.
  lemma StrideMatmulRow(operand: Tensor, start: Tensor, g: GatherDims, permuted: Tensor, constant: Tensor, b: seq<nat>)
    requires StrideOperands(operand, start, g, permuted, constant)
    requires |b| == |start.shape| - 1 && InShape(b, BatchSizes(start.shape, g.indexVectorDim))
    ensures Sum(|g.startIndexMap|, MatmulTerm(permuted, constant, b[..|b| - 1], b[|b| - 1], 0)) == Row(operand.shape, start, g, b)
  {
    hide Permute, At, Lin, Prod, Others, Sum, StartPosition, MatmulTerm, StrideTerm;
    var n := |g.startIndexMap|;
    var v := StartVector(start, g, b);
    var sizes := Apply(operand.shape, g.startIndexMap);
    var f := MatmulTerm(permuted, constant, b[..|b| - 1], b[|b| - 1], 0);
    forall k: nat | k < n
      ensures f(k) == StrideTerm(sizes, v)(k)
    {
      PermutedStartCell(start, g.indexVectorDim, b, k);
      ColumnCell(constant, n, k);
      StrideMatmulTerm(permuted, constant, b, k, sizes, v);
    }
    SumEqual(n, f, StrideTerm(sizes, v));
  }

  lemma StrideMatmulShapes(operand: Tensor, start: Tensor, g: GatherDims, permuted: Tensor, constant: Tensor)
    requires StrideOperands(operand, start, g, permuted, constant)
    ensures permuted.Valid() && MatmulShapes(permuted.shape, constant.shape)
    ensures var bs := BatchSizes(start.shape, g.indexVectorDim);
            permuted.shape[..|permuted.shape| - 1] == bs && |bs| == |start.shape| - 1
    ensures Matmul(permuted, constant).shape == BatchSizes(start.shape, g.indexVectorDim) + [1]
  {
    hide Permute, Others, Prod;
    assert permuted.shape[..|permuted.shape| - 1] == BatchSizes(start.shape, g.indexVectorDim);
  }

  lemma StrideMatmulHoldsRows(operand: Tensor, start: Tensor, g: GatherDims, permuted: Tensor, constant: Tensor, indices: Tensor)
    requires StrideOperands(operand, start, g, permuted, constant)
    requires permuted.Valid() && MatmulShapes(permuted.shape, constant.shape) && indices == Matmul(permuted, constant)
    ensures HoldsRows(indices, operand, start, g) && |indices.shape| == |start.shape|
  {
    hide Permute, At, Lin, Prod, Others, Apply, MatmulTerm, Sum, Matmul;
    var bs := BatchSizes(start.shape, g.indexVectorDim);
    StrideMatmulShapes(operand, start, g, permuted, constant);
    ProdAppend(bs, 1);
    forall b | InShape(b, bs)
      ensures HoldsRow(indices, operand, start, g, b)
    {
      StrideMatmulRow(operand, start, g, permuted, constant, b);
      LinAppend(bs, b, 1, 0);
      assert b[..|b| - 1] + [b[|b| - 1], 0] == b + [0];
      AtMatmul(permuted, constant, b[..|b| - 1], b[|b| - 1], 0);
      AtData(indices, b + [0]);
    }
  }

  // `transformStartIndices`: the index vector dimension moved last, then multiplied with the strides.
  method TransformStartIndices(operand: Tensor, start: Tensor, permutedShape: seq<nat>, g: GatherDims) returns (indices: Tensor)
    requires start.Valid() && g.indexVectorDim < |start.shape| && |start.shape| > 1
    requires start.shape[g.indexVectorDim] == |g.startIndexMap|
    requires InRange(g.startIndexMap, |operand.shape|)
    requires |g.startIndexMap| <= |permutedShape|
    requires permutedShape[..|g.startIndexMap|] == Apply(operand.shape, g.startIndexMap)
    ensures HoldsRows(indices, operand, start, g)
    ensures |indices.shape| == |start.shape|
  {
    hide Prod, Lin, At, HoldsRows, Others, Permute, Matmul;
    IndexDimLast(start.shape, g.indexVectorDim);
    var startIndicesPermutation := Others(|start.shape|, [g.indexVectorDim]) + [g.indexVectorDim];
    var startIndicesPermuted := Permute(start, startIndicesPermutation);
    var constant := StrideConstant(permutedShape, |g.startIndexMap|);
    StrideMatmulShapes(operand, start, g, startIndicesPermuted, constant);
    indices := Matmul(startIndicesPermuted, constant);
    StrideMatmulHoldsRows(operand, start, g, startIndicesPermuted, constant, indices);
  }

  // The constant op of the strides, a column.
  method StrideConstant(permutedShape: seq<nat>, n: nat) returns (constant: Tensor)
    requires n <= |permutedShape|
    ensures constant.Valid() && constant.shape == [n, 1] && |constant.data| == n
    ensures forall k :: 0 <= k < n ==> constant.data[k] == Prod(permutedShape[..n][k + 1..])
  {
    hide Prod;
    var strides := IndexStrides(permutedShape, n);
    PairProd(n);
    constant := Tensor([n, 1], strides);
  }

  // `reshapeStartIndices`, applied to index tensors of rank 3 and up: embedding takes at most rank 2.
  method FlattenIndices(indices: Tensor) returns (flat: Tensor)
    requires indices.Valid()
    ensures flat.Valid() && flat.data == indices.data && |flat.shape| <= 2
    ensures if |indices.shape| <= 2 then flat == indices else flat.shape == [|indices.data|]
  {
    if |indices.shape| >= 3 {
      ProdOne(Prod(indices.shape));
      flat := Reshape(indices, [Prod(indices.shape)]);
    } else {
      flat := indices;
    }
  }

  // The permutation loops of `reshapeAndPermuteOutput`. Offset dimensions are sorted in a well-formed op.
  method OutputPermutation(rank: nat, offsetDims: seq<nat>) returns (outputPermutation: seq<nat>)
    requires Ascending(offsetDims) && InRange(offsetDims, rank)
    ensures outputPermutation == Others(rank, offsetDims) + offsetDims
  {
    outputPermutation := [];
    var offsetDimsIndex := 0;
    for outputShapeIndex := 0 to rank
      invariant 0 <= offsetDimsIndex <= |offsetDims|
      invariant forall k :: 0 <= k < offsetDimsIndex ==> offsetDims[k] < outputShapeIndex
      invariant forall k :: offsetDimsIndex <= k < |offsetDims| ==> outputShapeIndex <= offsetDims[k]
      invariant outputPermutation == Others(outputShapeIndex, offsetDims)
    {
      if offsetDimsIndex < |offsetDims| && offsetDims[offsetDimsIndex] == outputShapeIndex {
        offsetDimsIndex := offsetDimsIndex + 1;
        continue;
      }
      outputPermutation := outputPermutation + [outputShapeIndex];
    }
    ghost var batch := outputPermutation;
    for k := 0 to |offsetDims|
      invariant outputPermutation == batch + offsetDims[..k]
    {
      assert offsetDims[..k + 1] == offsetDims[..k] + [offsetDims[k]];
      outputPermutation := outputPermutation + [offsetDims[k]];
    }
    assert offsetDims[..|offsetDims|] == offsetDims;
  }

  // The clamped start index of batch `b`, one component per indexed dimension.
  function ClampedVector(shape: seq<nat>, start: Tensor, g: GatherDims, b: seq<nat>): (v: seq<nat>)
    requires InRange(g.startIndexMap, |shape|) && |g.sliceSizes| == |shape| && forall d :: 0 <= d < |shape| ==> g.sliceSizes[d] <= shape[d]
    requires g.indexVectorDim < |start.shape| ==> |b| == |start.shape| - 1
    ensures |v| == |g.startIndexMap|
  {
    seq(|g.startIndexMap|, (k: nat) requires k < |g.startIndexMap| =>
      Clamp(At(start, StartPosition(b, g.indexVectorDim, |start.shape|, k)), shape[g.startIndexMap[k]] - g.sliceSizes[g.startIndexMap[k]]))
  }

  // Putting the clamped start index on the indexed dimensions and the offset on the others is the
  // specification's operand index.
  lemma OperandIndexIsScatter(operand: Tensor, start: Tensor, g: GatherDims, b: seq<nat>, o: seq<nat>)
    requires IndexParts(operand, start, g, b, o)
    requires g.startIndexMap == g.collapsedSliceDims && Distinct(g.startIndexMap) && InRange(g.startIndexMap, |operand.shape|)
    ensures var perm := g.startIndexMap + Others(|operand.shape|, g.startIndexMap);
            IsPerm(perm) && |perm| == |operand.shape| == |ClampedVector(operand.shape, start, g, b) + o|
            && Scatter(perm, ClampedVector(operand.shape, start, g, b) + o) == OperandIndex(operand, start, g, b, o)
  {
    OthersCompletePermutation(|operand.shape|, g.startIndexMap);
    forall k | 0 <= k < |g.startIndexMap|
      ensures OperandIndex(operand, start, g, b, o)[g.startIndexMap[k]] == ClampedVector(operand.shape, start, g, b)[k]
    {
      IndexedCoordinate(operand, start, g, b, o, k);
    }
    forall j | 0 <= j < |o|
      ensures OperandIndex(operand, start, g, b, o)[Others(|operand.shape|, g.startIndexMap)[j]] == o[j]
    {
      OffsetCoordinate(operand, start, g, b, o, j);
    }
    hide Others, At, StartPosition, OperandIndex, ClampedVector, IsPerm;
    ScatterUniqueConcat(g.startIndexMap, Others(|operand.shape|, g.startIndexMap), ClampedVector(operand.shape, start, g, b), o,
                        OperandIndex(operand, start, g, b, o));
  }

  lemma ScatterUniqueConcat(p: seq<nat>, q: seq<nat>, x: seq<nat>, y: seq<nat>, idx: seq<nat>)
    requires IsPerm(p + q) && |p| == |x| && |q| == |y| && |idx| == |p + q|
    requires InRange(p, |idx|) && InRange(q, |idx|)
    requires forall i :: 0 <= i < |p| ==> idx[p[i]] == x[i]
    requires forall i :: 0 <= i < |q| ==> idx[q[i]] == y[i]
    ensures Scatter(p + q, x + y) == idx
  {
    ScatterUnique(p + q, x + y, idx);
  }

  lemma IndexedCoordinate(operand: Tensor, start: Tensor, g: GatherDims, b: seq<nat>, o: seq<nat>, k: nat)
    requires IndexParts(operand, start, g, b, o) && k < |g.startIndexMap|
    requires g.startIndexMap == g.collapsedSliceDims && Distinct(g.startIndexMap) && InRange(g.startIndexMap, |operand.shape|)
    ensures OperandIndex(operand, start, g, b, o)[g.startIndexMap[k]] == ClampedVector(operand.shape, start, g, b)[k]
  {
    hide At, StartPosition, Others;
    assert g.startIndexMap[k] in g.startIndexMap && IndexOf(g.startIndexMap, g.startIndexMap[k]) == k;
  }

  lemma OffsetCoordinate(operand: Tensor, start: Tensor, g: GatherDims, b: seq<nat>, o: seq<nat>, j: nat)
    requires IndexParts(operand, start, g, b, o) && j < |o|
    requires g.startIndexMap == g.collapsedSliceDims
    ensures OperandIndex(operand, start, g, b, o)[Others(|operand.shape|, g.startIndexMap)[j]] == o[j]
  {
    OthersMembers(|operand.shape|, g.startIndexMap);
    hide At, StartPosition, Others;
    var others := Others(|operand.shape|, g.startIndexMap);
    assert others[j] in others && IndexOf(others, others[j]) == j;
  }

  // Everything the last steps of the rewrite rely on.
  ghost predicate Ready(operand: Tensor, start: Tensor, result: seq<nat>, g: GatherDims, indices: Tensor, weights: Tensor) {
    && WellFormed(operand, start, result, g)
    && BasicLegality(operand.shape, start.shape, g)
    && HoldsRows(indices, operand, start, g)
    && IndexedFirst(operand, g.startIndexMap)
    && weights == Flattened(operand, [], g.startIndexMap, Others(|operand.shape|, g.startIndexMap))
  }

  // The columns of the weights are the offsets.
  lemma OffsetSizes(operand: Tensor, start: Tensor, result: seq<nat>, g: GatherDims)
    requires WellFormed(operand, start, result, g) && BasicLegality(operand.shape, start.shape, g)
    ensures Apply(result, g.offsetDims) == Apply(operand.shape, Others(|operand.shape|, g.startIndexMap))
  {
    var others := Others(|operand.shape|, g.startIndexMap);
    OthersMembers(|operand.shape|, g.startIndexMap);
    hide Others;
    forall j | 0 <= j < |others|
      ensures operand.shape[others[j]] == g.sliceSizes[others[j]]
    {
      assert others[j] in others;
    }
  }

  lemma NoBatch(shape: seq<nat>)
    ensures Apply(shape, []) == [] && InShape([], Apply(shape, []))
  {}

  // Row and column of the weights: the operand element with both flattened indices unflattened.
  lemma IndexedFirstCell(operand: Tensor, sim: seq<nat>, v: seq<nat>, o: seq<nat>)
    requires IndexedFirst(operand, sim)
    requires InShape(v, Apply(operand.shape, sim)) && InShape(o, Apply(operand.shape, Others(|operand.shape|, sim)))
    ensures var perm := sim + Others(|operand.shape|, sim);
            && IsPerm(perm) && |perm| == |operand.shape| == |v + o|
            && InShape(Scatter(perm, v + o), operand.shape)
            && At(Flattened(operand, [], sim, Others(|operand.shape|, sim)),
                  [Lin(Apply(operand.shape, sim), v), Lin(Apply(operand.shape, Others(|operand.shape|, sim)), o)])
               == At(operand, Scatter(perm, v + o))
  {
    hide At, Lin, Prod, Others, Flattened, Scatter;
    var others := Others(|operand.shape|, sim);
    NoBatch(operand.shape);
    FlattenedCell(operand, [], sim, others, [], v, o);
    assert [] + sim + others == sim + others && [] + v + o == v + o;
    var m := [Lin(Apply(operand.shape, sim), v), Lin(Apply(operand.shape, others), o)];
    assert [] + m == m;
    InShapeConcat(Apply(operand.shape, sim), v, Apply(operand.shape, others), o);
    ApplyConcat(operand.shape, sim, others);
    ScatterInShape(operand.shape, sim + others, v + o);
  }

  // What the embedding reads for a row and an offset: the element with the row unflattened, or zero.
  function EmbeddedRead(operand: Tensor, sim: seq<nat>, row: int, o: seq<nat>): int
    requires IsPerm(sim + Others(|operand.shape|, sim)) && |sim + Others(|operand.shape|, sim)| == |sim| + |o|
    requires InRange(sim, |operand.shape|)
  {
    if 0 <= row < Prod(Apply(operand.shape, sim))
    then At(operand, Scatter(sim + Others(|operand.shape|, sim), Delin(Apply(operand.shape, sim), row) + o))
    else 0
  }

  lemma WeightsCell(operand: Tensor, sim: seq<nat>, row: nat, o: seq<nat>)
    requires IndexedFirst(operand, sim) && InShape(o, Apply(operand.shape, Others(|operand.shape|, sim))) && InRange(sim, |operand.shape|)
    ensures IsPerm(sim + Others(|operand.shape|, sim)) && |sim + Others(|operand.shape|, sim)| == |sim| + |o|
    ensures At(Flattened(operand, [], sim, Others(|operand.shape|, sim)), [row, Lin(Apply(operand.shape, Others(|operand.shape|, sim)), o)])
         == EmbeddedRead(operand, sim, row, o)
  {
    hide At, Lin, Prod, Others, Flattened, Scatter, Apply, Delin, IndexedFirst;
    var others := Others(|operand.shape|, sim);
    IndexedFirstParts(operand, sim);
    if row < Prod(Apply(operand.shape, sim)) {
      var v := Delin(Apply(operand.shape, sim), row);
      IndexedFirstCell(operand, sim, v, o);
    } else {
      OutsideRow(Flattened(operand, [], sim, others), row, Lin(Apply(operand.shape, others), o));
    }
  }

  lemma IndexedFirstParts(operand: Tensor, sim: seq<nat>)
    requires IndexedFirst(operand, sim)
    ensures var others := Others(|operand.shape|, sim);
      && Groups(operand, [], sim, others) && IsPerm(sim + others) && |sim + others| == |operand.shape|
      && Flattened(operand, [], sim, others).shape == [Prod(Apply(operand.shape, sim)), Prod(Apply(operand.shape, others))]
  {
    hide Prod, Others, Flattened;
    var others := Others(|operand.shape|, sim);
    assert [] + sim + others == sim + others;
    var u := [Prod(Apply(operand.shape, sim)), Prod(Apply(operand.shape, others))];
    assert Apply(operand.shape, []) + u == u;
  }

  lemma OutsideRow(t: Tensor, row: nat, m: nat)
    requires |t.shape| == 2 && row >= t.shape[0]
    ensures At(t, [row, m]) == 0
  {}

  // The embedding, read as a tensor of batch and offset dimensions.
  lemma EmbeddedCell(operand: Tensor, start: Tensor, result: seq<nat>, g: GatherDims, indices: Tensor, weights: Tensor,
                     output: Tensor, b: seq<nat>, o: seq<nat>)
    requires Ready(operand, start, result, g, indices, weights) && weights.Valid() && |weights.shape| == 2
    requires weights.shape[1] == Prod(Apply(operand.shape, Others(|operand.shape|, g.startIndexMap)))
    requires IndexParts(operand, start, g, b, o)
    requires InShape(b, BatchSizes(start.shape, g.indexVectorDim))
    requires InShape(o, Apply(operand.shape, Others(|operand.shape|, g.startIndexMap)))
    requires output.Valid() && output.data == Embedding(indices, weights).data
    requires output.shape == BatchSizes(start.shape, g.indexVectorDim) + Apply(operand.shape, Others(|operand.shape|, g.startIndexMap))
    ensures IsPerm(g.startIndexMap + Others(|operand.shape|, g.startIndexMap))
    ensures |g.startIndexMap + Others(|operand.shape|, g.startIndexMap)| == |g.startIndexMap| + |o|
    ensures At(output, b + o) == EmbeddedRead(operand, g.startIndexMap, Row(operand.shape, start, g, b), o)
  {
    hide At, Lin, Prod, Others, Flattened, Row, Embedding, Apply, BatchSizes, EmbeddedRead;
    var bs := BatchSizes(start.shape, g.indexVectorDim);
    var os := Apply(operand.shape, Others(|operand.shape|, g.startIndexMap));
    assert HoldsRow(indices, operand, start, g, b);
    LinConcat(bs, b, os, o);
    AtData(output, b + o);
    var row := Row(operand.shape, start, g, b);
    EmbeddingData(indices, weights, Lin(bs, b), Lin(os, o), row);
    if row < 0 {
      WeightsCell(operand, g.startIndexMap, 0, o);
      NegativeRow(operand, g.startIndexMap, row, o);
    } else {
      WeightsCell(operand, g.startIndexMap, row, o);
    }
  }

  lemma NegativeRow(operand: Tensor, sim: seq<nat>, row: int, o: seq<nat>)
    requires IsPerm(sim + Others(|operand.shape|, sim)) && |sim + Others(|operand.shape|, sim)| == |sim| + |o|
    requires InRange(sim, |operand.shape|) && row < 0
    ensures EmbeddedRead(operand, sim, row, o) == 0
  {}

  // `t` is what the rewrite computes of a gather that indexes some dimension.
  ghost predicate IsEmbedded(t: Tensor, operand: Tensor, start: Tensor, result: seq<nat>, g: GatherDims)
    requires WellFormed(operand, start, result, g) && BasicLegality(operand.shape, start.shape, g)
  {
    && t.Valid() && t.shape == result
    && forall idx :: InShape(idx, result) ==> IsEmbeddedCell(t, operand, start, result, g, idx)
  }

  ghost predicate IsEmbeddedCell(t: Tensor, operand: Tensor, start: Tensor, result: seq<nat>, g: GatherDims, idx: seq<nat>)
    requires WellFormed(operand, start, result, g) && BasicLegality(operand.shape, start.shape, g) && |idx| == |result|
  {
    ResultParts(operand, start, result, g);
    OthersCompletePermutation(|operand.shape|, g.startIndexMap);
    At(t, idx) == EmbeddedRead(operand, g.startIndexMap, Row(operand.shape, start, g, Apply(idx, Others(|result|, g.offsetDims))), Apply(idx, g.offsetDims))
  }

  // `reshapeAndPermuteOutput`. The reshape exists only when the element counts agree.
  method ReshapeAndPermuteOutput(embedded: Tensor, result: seq<nat>, offsetDims: seq<nat>) returns (output: Option<Tensor>)
    requires embedded.Valid() && Ascending(offsetDims) && InRange(offsetDims, |result|)
    ensures var perm := Others(|result|, offsetDims) + offsetDims;
            && IsPerm(perm) && |perm| == |result|
            && (output.Some? <==> Prod(Apply(result, perm)) == |embedded.data|)
            && (output.Some? ==> output.value == Permute(Tensor(Apply(result, perm), embedded.data), Inverse(perm)))
  {
    hide Prod, Permute, Others, Apply;
    OthersCompletePermutation(|result|, offsetDims);
    var outputPermutation := OutputPermutation(|result|, offsetDims);
    var permutedOutputShape := Apply(result, outputPermutation);
    if Prod(permutedOutputShape) != Prod(embedded.shape) {
      return None;
    }
    var reshaped := Reshape(embedded, permutedOutputShape);
    output := Some(Permute(reshaped, Inverse(outputPermutation)));
  }

  lemma ResultCell(operand: Tensor, start: Tensor, result: seq<nat>, g: GatherDims, indices: Tensor, weights: Tensor,
                   output: Tensor, idx: seq<nat>)
    requires Ready(operand, start, result, g, indices, weights) && weights.Valid() && |weights.shape| == 2
    requires weights.shape[1] == Prod(Apply(operand.shape, Others(|operand.shape|, g.startIndexMap)))
    requires IsPerm(Others(|result|, g.offsetDims) + g.offsetDims) && |Others(|result|, g.offsetDims) + g.offsetDims| == |result|
    requires output.Valid() && output.data == Embedding(indices, weights).data
    requires output.shape == Apply(result, Others(|result|, g.offsetDims) + g.offsetDims)
    requires InShape(idx, result)
    ensures IsEmbeddedCell(Permute(output, Inverse(Others(|result|, g.offsetDims) + g.offsetDims)), operand, start, result, g, idx)
  {
    hide At, Lin, Prod, Others, Permute, Embedding, HoldsRows, Row, EmbeddedRead, Flattened;
    var batchDims := Others(|result|, g.offsetDims);
    var b, o := Apply(idx, batchDims), Apply(idx, g.offsetDims);
    ResultParts(operand, start, result, g);
    OffsetSizes(operand, start, result, g);
    ApplyConcat(result, batchDims, g.offsetDims);
    ApplyConcat(idx, batchDims, g.offsetDims);
    AtUnpermuted(output, batchDims + g.offsetDims, result, idx);
    EmbeddedCell(operand, start, result, g, indices, weights, output, b, o);
  }

  lemma HoldsRowsSameData(indices: Tensor, flat: Tensor, operand: Tensor, start: Tensor, g: GatherDims)
    requires InRange(g.startIndexMap, |operand.shape|) && HoldsRows(indices, operand, start, g)
    requires flat.Valid() && flat.data == indices.data
    ensures HoldsRows(flat, operand, start, g)
  {
    hide Lin, Prod, Row, Apply, BatchSizes;
    forall b | InShape(b, BatchSizes(start.shape, g.indexVectorDim))
      ensures HoldsRow(flat, operand, start, g, b)
    {
      assert HoldsRow(indices, operand, start, g, b);
    }
  }

  lemma EmbeddingSize(indices: Tensor, weights: Tensor, bs: seq<nat>, os: seq<nat>)
    requires indices.Valid() && weights.Valid() && |weights.shape| == 2
    requires |indices.data| == Prod(bs) && weights.shape[1] == Prod(os)
    ensures |Embedding(indices, weights).data| == Prod(bs + os)
  {
    hide Prod, Embedding;
    ProdConcat(bs, os);
    ProdAppend(indices.shape, weights.shape[1]);
  }

  lemma ResultSplit(operand: Tensor, start: Tensor, result: seq<nat>, g: GatherDims)
    requires WellFormed(operand, start, result, g) && BasicLegality(operand.shape, start.shape, g)
    requires InRange(Others(|result|, g.offsetDims) + g.offsetDims, |result|)
    ensures Apply(result, Others(|result|, g.offsetDims) + g.offsetDims)
         == BatchSizes(start.shape, g.indexVectorDim) + Apply(operand.shape, Others(|operand.shape|, g.startIndexMap))
  {
    OffsetSizes(operand, start, result, g);
    hide Others, Apply, BatchSizes;
    ApplyConcat(result, Others(|result|, g.offsetDims), g.offsetDims);
  }

  // With the start index holding every batch, the embedding has exactly the result's elements.
  lemma EmbeddedSize(operand: Tensor, start: Tensor, result: seq<nat>, g: GatherDims, flat: Tensor, weights: Tensor)
    requires Ready(operand, start, result, g, flat, weights) && weights.Valid() && |weights.shape| == 2
    requires weights.shape[1] == Prod(Apply(operand.shape, Others(|operand.shape|, g.startIndexMap)))
    requires InRange(Others(|result|, g.offsetDims) + g.offsetDims, |result|)
    ensures Prod(Apply(result, Others(|result|, g.offsetDims) + g.offsetDims)) == |Embedding(flat, weights).data|
  {
    hide Lin, Prod, Others, Embedding, HoldsRow, Apply, BatchSizes, Flattened;
    ResultSplit(operand, start, result, g);
    EmbeddingSize(flat, weights, BatchSizes(start.shape, g.indexVectorDim), Apply(operand.shape, Others(|operand.shape|, g.startIndexMap)));
  }

  lemma RestoredIsEmbedded(operand: Tensor, start: Tensor, result: seq<nat>, g: GatherDims, flat: Tensor, weights: Tensor,
                           reshaped: Tensor, output: Tensor)
    requires Ready(operand, start, result, g, flat, weights) && weights.Valid() && |weights.shape| == 2
    requires weights.shape[1] == Prod(Apply(operand.shape, Others(|operand.shape|, g.startIndexMap)))
    requires IsPerm(Others(|result|, g.offsetDims) + g.offsetDims) && |Others(|result|, g.offsetDims) + g.offsetDims| == |result|
    requires reshaped.shape == Apply(result, Others(|result|, g.offsetDims) + g.offsetDims)
    requires reshaped.Valid() && reshaped.data == Embedding(flat, weights).data
    requires output == Permute(reshaped, Inverse(Others(|result|, g.offsetDims) + g.offsetDims))
    ensures IsEmbedded(output, operand, start, result, g)
  {
    hide At, Lin, Prod, Permute, Embedding, HoldsRows, Flattened, IsEmbeddedCell, Others, Apply;
    ApplyInverse(result, Others(|result|, g.offsetDims) + g.offsetDims);
    forall idx | InShape(idx, result)
      ensures IsEmbeddedCell(output, operand, start, result, g, idx)
    {
      ResultCell(operand, start, result, g, flat, weights, reshaped, idx);
    }
  }

  // The last steps: embedding, reshape, inverse permute.
  method EmbedAndRestore(operand: Tensor, start: Tensor, result: seq<nat>, g: GatherDims, indices: Tensor, weights: Tensor)
      returns (output: Option<Tensor>)
    requires Ready(operand, start, result, g, indices, weights) && weights.Valid()
    requires weights.shape == [Prod(Apply(operand.shape, g.startIndexMap)), Prod(Apply(operand.shape, Others(|operand.shape|, g.startIndexMap)))]
    ensures output.Some? && IsEmbedded(output.value, operand, start, result, g)
  {
    hide At, Lin, Prod, Others, Permute, Embedding, HoldsRow, IsEmbedded, Flattened, Apply;
    var flat := FlattenIndices(indices);
    HoldsRowsSameData(indices, flat, operand, start, g);
    OthersCompletePermutation(|result|, g.offsetDims);
    EmbeddedSize(operand, start, result, g, flat, weights);
    var embedded := Embedding(flat, weights);
    output := ReshapeAndPermuteOutput(embedded, result, g.offsetDims);
    RestoredIsEmbedded(operand, start, result, g, flat, weights,
                       Tensor(Apply(result, Others(|result|, g.offsetDims) + g.offsetDims), embedded.data), output.value);
  }

  lemma PermutedEmpty(shape: seq<nat>, perm: seq<nat>)
    requires IsPerm(perm) && |perm| == |shape|
    ensures Prod(Apply(shape, perm)) == 0 <==> Prod(shape) == 0
  {
    ProdZero(shape);
    ProdZero(Apply(shape, perm));
    hide Prod;
    if 0 in shape {
      var d := IndexOf(shape, 0);
      PermCovers(perm, d);
      assert Apply(shape, perm)[IndexOf(perm, d)] == 0;
    }
  }

  // Without indexed dimensions the start indices tensor is empty, and so is the embedding.
  lemma NoIndexIsEmpty(operand: Tensor, start: Tensor, result: seq<nat>, g: GatherDims)
    requires WellFormed(operand, start, result, g) && g.startIndexMap == []
    ensures |start.data| == 0
  {
    assert start.shape[g.indexVectorDim] in start.shape;
    ProdZero(start.shape);
  }

  lemma EmptyIsGather(t: Tensor, operand: Tensor, start: Tensor, result: seq<nat>, g: GatherDims)
    requires WellFormed(operand, start, result, g) && t.Valid() && t.shape == result && Prod(result) == 0
    ensures IsGather(t, operand, start, result, g)
  {
    forall idx
      ensures !InShape(idx, result)
    {
      IndexedIsNonEmpty(result, idx);
    }
  }

  /* When the rewrite is gather */

  // The row of batch `b` is the one the clamped start index has.
  ghost predicate RowFits(shape: seq<nat>, start: Tensor, g: GatherDims, b: seq<nat>)
    requires InRange(g.startIndexMap, |shape|) && |g.sliceSizes| == |shape| && forall d :: 0 <= d < |shape| ==> g.sliceSizes[d] <= shape[d]
    requires g.indexVectorDim < |start.shape| ==> |b| == |start.shape| - 1
  {
    var sizes, v := Apply(shape, g.startIndexMap), ClampedVector(shape, start, g, b);
    InShape(v, sizes) && Row(shape, start, g, b) == Lin(sizes, v)
  }

  // What a caller has to check of the start indices: at every batch the row is the clamped one's. A
  // start index out of bounds may pass, when what one component is over another makes up for.
  ghost predicate StartsFit(operand: Tensor, start: Tensor, result: seq<nat>, g: GatherDims)
    requires WellFormed(operand, start, result, g)
  {
    forall b :: InShape(b, BatchSizes(start.shape, g.indexVectorDim)) ==> RowFits(operand.shape, start, g, b)
  }

  // Start indices in bounds are not clamped, and fit.
  lemma InBoundsFits(operand: Tensor, start: Tensor, result: seq<nat>, g: GatherDims)
    requires WellFormed(operand, start, result, g) && BasicLegality(operand.shape, start.shape, g) && InBounds(operand, start, g)
    ensures StartsFit(operand, start, result, g)
  {
    hide At, Lin, Prod, StartPosition, Sum, StrideTerm;
    forall b | InShape(b, BatchSizes(start.shape, g.indexVectorDim))
      ensures RowFits(operand.shape, start, g, b)
    {
      var v := ClampedVector(operand.shape, start, g, b);
      forall k | 0 <= k < |v|
        ensures v[k] == StartVector(start, g, b)[k] && v[k] < operand.shape[g.startIndexMap[k]]
      {
        assert g.startIndexMap[k] in g.collapsedSliceDims;
      }
      assert v == StartVector(start, g, b);
      LinIsStrideSum(Apply(operand.shape, g.startIndexMap), v);
    }
  }

  // A fitting row is read at the specification's operand index.
  lemma FittingRead(operand: Tensor, start: Tensor, result: seq<nat>, g: GatherDims, b: seq<nat>, o: seq<nat>)
    requires WellFormed(operand, start, result, g) && BasicLegality(operand.shape, start.shape, g)
    requires IndexParts(operand, start, g, b, o) && RowFits(operand.shape, start, g, b)
    requires InShape(o, Apply(operand.shape, Others(|operand.shape|, g.startIndexMap)))
    ensures IsPerm(g.startIndexMap + Others(|operand.shape|, g.startIndexMap))
    ensures |g.startIndexMap + Others(|operand.shape|, g.startIndexMap)| == |g.startIndexMap| + |o|
    ensures InShape(OperandIndex(operand, start, g, b, o), operand.shape)
    ensures EmbeddedRead(operand, g.startIndexMap, Row(operand.shape, start, g, b), o) == At(operand, OperandIndex(operand, start, g, b, o))
  {
    hide At, Lin, Prod, Others, Scatter, Delin, OperandIndex, ClampedVector, Row, Apply, InShape;
    var sim := g.startIndexMap;
    var sizes, v := Apply(operand.shape, sim), ClampedVector(operand.shape, start, g, b);
    OperandIndexIsScatter(operand, start, g, b, o);
    DelinLin(sizes, v);
    ScatterParts(operand.shape, sim, v, o);
  }

  lemma ScatterParts(shape: seq<nat>, sim: seq<nat>, v: seq<nat>, o: seq<nat>)
    requires InRange(sim, |shape|) && IsPerm(sim + Others(|shape|, sim)) && |sim + Others(|shape|, sim)| == |shape|
    requires InShape(v, Apply(shape, sim)) && InShape(o, Apply(shape, Others(|shape|, sim)))
    ensures |v + o| == |shape| && InShape(Scatter(sim + Others(|shape|, sim), v + o), shape)
  {
    hide Others, Scatter;
    var others := Others(|shape|, sim);
    InShapeConcat(Apply(shape, sim), v, Apply(shape, others), o);
    ApplyConcat(shape, sim, others);
    ScatterInShape(shape, sim + others, v + o);
  }

  // What the rewrite computes is gather when the start indices fit.
  lemma FittingIsGather(t: Tensor, operand: Tensor, start: Tensor, result: seq<nat>, g: GatherDims)
    requires WellFormed(operand, start, result, g) && BasicLegality(operand.shape, start.shape, g)
    requires IsEmbedded(t, operand, start, result, g) && StartsFit(operand, start, result, g)
    ensures IsGather(t, operand, start, result, g)
  {
    hide At, Lin, Prod, Others, EmbeddedRead, OperandIndex, Row, RowFits;
    forall idx | InShape(idx, result)
      ensures IsGatherCell(t, operand, start, result, g, idx)
    {
      var b, o := Apply(idx, Others(|result|, g.offsetDims)), Apply(idx, g.offsetDims);
      assert IsEmbeddedCell(t, operand, start, result, g, idx);
      ResultParts(operand, start, result, g);
      OffsetSizes(operand, start, result, g);
      FittingRead(operand, start, result, g, b, o);
    }
  }

  // The rewrite is gather for every operand of this shape.
  ghost predicate AlwaysGathers(operand: Tensor, start: Tensor, result: seq<nat>, g: GatherDims)
    requires |g.sliceSizes| == |operand.shape| && BasicLegality(operand.shape, start.shape, g)
  {
    forall x: Tensor, t: Tensor :: x.shape == operand.shape && WellFormed(x, start, result, g) && IsEmbedded(t, x, start, result, g) ==>
      IsGather(t, x, start, result, g)
  }

  // A tensor of what the rewrite computes.
  ghost function Embedded(operand: Tensor, start: Tensor, result: seq<nat>, g: GatherDims): (t: Tensor)
    requires WellFormed(operand, start, result, g) && BasicLegality(operand.shape, start.shape, g)
    ensures t.Valid() && t.shape == result
  {
    Build(result, (idx: seq<nat>) => if |idx| == |result| then EmbeddedAt(operand, start, result, g, idx) else 0)
  }

  ghost function EmbeddedAt(operand: Tensor, start: Tensor, result: seq<nat>, g: GatherDims, idx: seq<nat>): int
    requires WellFormed(operand, start, result, g) && BasicLegality(operand.shape, start.shape, g) && |idx| == |result|
  {
    ResultParts(operand, start, result, g);
    OthersCompletePermutation(|operand.shape|, g.startIndexMap);
    EmbeddedRead(operand, g.startIndexMap, Row(operand.shape, start, g, Apply(idx, Others(|result|, g.offsetDims))), Apply(idx, g.offsetDims))
  }

  lemma EmbeddedIsEmbedded(operand: Tensor, start: Tensor, result: seq<nat>, g: GatherDims)
    requires WellFormed(operand, start, result, g) && BasicLegality(operand.shape, start.shape, g)
    ensures IsEmbedded(Embedded(operand, start, result, g), operand, start, result, g)
  {
    hide EmbeddedRead, Row, At, WellFormed, BasicLegality;
    forall idx | InShape(idx, result)
      ensures IsEmbeddedCell(Embedded(operand, start, result, g), operand, start, result, g, idx)
    {
      AtBuild(result, (i: seq<nat>) => if |i| == |result| then EmbeddedAt(operand, start, result, g, i) else 0, idx);
    }
  }

  // A result index with given batch and offset parts.
  lemma IndexOfParts(result: seq<nat>, offsetDims: seq<nat>, b: seq<nat>, o: seq<nat>) returns (idx: seq<nat>)
    requires Distinct(offsetDims) && InRange(offsetDims, |result|)
    requires InShape(b, Apply(result, Others(|result|, offsetDims))) && InShape(o, Apply(result, offsetDims))
    ensures InShape(idx, result) && Apply(idx, Others(|result|, offsetDims)) == b && Apply(idx, offsetDims) == o
  {
    hide Others, Scatter;
    var batchDims := Others(|result|, offsetDims);
    var perm := batchDims + offsetDims;
    OthersCompletePermutation(|result|, offsetDims);
    InShapeConcat(Apply(result, batchDims), b, Apply(result, offsetDims), o);
    ApplyConcat(result, batchDims, offsetDims);
    ScatterInShape(result, perm, b + o);
    idx := Scatter(perm, b + o);
    ScatterApplied(perm, b + o);
    ApplyConcat(idx, batchDims, offsetDims);
    SameParts(Apply(idx, batchDims), Apply(idx, offsetDims), b, o);
  }

  lemma SameParts(a: seq<nat>, c: seq<nat>, b: seq<nat>, o: seq<nat>)
    requires a + c == b + o && |a| == |b|
    ensures a == b && c == o
  {
    assert a == (a + c)[..|a|] && b == (b + o)[..|b|];
    assert c == (a + c)[|a|..] && o == (b + o)[|b|..];
  }

  lemma ScatterApplied(p: seq<nat>, x: seq<nat>)
    requires IsPerm(p) && |p| == |x|
    ensures InRange(p, |Scatter(p, x)|) && Apply(Scatter(p, x), p) == x
  {
    ApplyInverse(x, p);
  }

  // The rewrite is gather only if the row of each batch fits: an impulse at the specification's
  // operand index tells.
  lemma GatherMeansFitting(operand: Tensor, start: Tensor, result: seq<nat>, g: GatherDims, b: seq<nat>)
    requires WellFormed(operand, start, result, g) && BasicLegality(operand.shape, start.shape, g)
    requires AlwaysGathers(operand, start, result, g) && Prod(result) != 0 && InShape(b, BatchSizes(start.shape, g.indexVectorDim))
    ensures RowFits(operand.shape, start, g, b)
  {
    hide At, Lin, Prod, Others, Scatter, EmbeddedRead, OperandIndex, Row, Impulse, Embedded, RowFits;
    var o := ZeroOffset(operand, start, result, g);
    OffsetSizes(operand, start, result, g);
    ResultParts(operand, start, result, g);
    var idx := IndexOfParts(result, g.offsetDims, b, o);
    var src := OperandIndex(operand, start, g, b, o);
    EmbeddedIsEmbedded(operand, start, result, g);
    assert IsGather(Embedded(operand, start, result, g), operand, start, result, g);
    assert IsGatherCell(Embedded(operand, start, result, g), operand, start, result, g, idx);
    var x := Impulse(operand.shape, src);
    SameSource(operand, x, start, g, b, o);
    EmbeddedIsEmbedded(x, start, result, g);
    var t := Embedded(x, start, result, g);
    assert IsGather(t, x, start, result, g);
    assert IsGatherCell(t, x, start, result, g, idx) && IsEmbeddedCell(t, x, start, result, g, idx);
    AtImpulse(operand.shape, src, src);
    OthersCompletePermutation(|operand.shape|, g.startIndexMap);
    ImpulseRow(operand, start, result, g, b, o);
  }

  lemma ZeroOffset(operand: Tensor, start: Tensor, result: seq<nat>, g: GatherDims) returns (o: seq<nat>)
    requires WellFormed(operand, start, result, g) && BasicLegality(operand.shape, start.shape, g) && Prod(result) != 0
    ensures InShape(o, Apply(result, g.offsetDims))
  {
    ProdZero(result);
    o := seq(|g.offsetDims|, _ => 0);
    forall k | 0 <= k < |o|
      ensures o[k] < result[g.offsetDims[k]]
    {
      assert result[g.offsetDims[k]] in result;
    }
  }

  // The source index depends on the shape alone.
  lemma SameSource(operand: Tensor, x: Tensor, start: Tensor, g: GatherDims, b: seq<nat>, o: seq<nat>)
    requires x.shape == operand.shape && IndexParts(operand, start, g, b, o)
    ensures IndexParts(x, start, g, b, o) && OperandIndex(x, start, g, b, o) == OperandIndex(operand, start, g, b, o)
  {
    hide At, StartPosition, Others;
  }

  // A read that finds the impulse at the specification's operand index is of the clamped row.
  lemma ImpulseRow(operand: Tensor, start: Tensor, result: seq<nat>, g: GatherDims, b: seq<nat>, o: seq<nat>)
    requires WellFormed(operand, start, result, g) && BasicLegality(operand.shape, start.shape, g)
    requires IndexParts(operand, start, g, b, o) && InShape(OperandIndex(operand, start, g, b, o), operand.shape)
    requires InShape(o, Apply(operand.shape, Others(|operand.shape|, g.startIndexMap)))
    requires IsPerm(g.startIndexMap + Others(|operand.shape|, g.startIndexMap))
    requires |g.startIndexMap + Others(|operand.shape|, g.startIndexMap)| == |g.startIndexMap| + |o|
    requires EmbeddedRead(Impulse(operand.shape, OperandIndex(operand, start, g, b, o)), g.startIndexMap, Row(operand.shape, start, g, b), o) == 1
    ensures RowFits(operand.shape, start, g, b)
  {
    hide At, Lin, Prod, Others, Scatter, Delin, OperandIndex, ClampedVector, Row, Impulse;
    var sim := g.startIndexMap;
    var perm, sizes := sim + Others(|operand.shape|, sim), Apply(operand.shape, sim);
    var row, v := Row(operand.shape, start, g, b), ClampedVector(operand.shape, start, g, b);
    var src := OperandIndex(operand, start, g, b, o);
    OperandIndexIsScatter(operand, start, g, b, o);
    assert 0 <= row < Prod(sizes);
    AtImpulse(operand.shape, src, Scatter(perm, Delin(sizes, row) + o));
    ScatterApplied(perm, Delin(sizes, row) + o);
    ScatterApplied(perm, v + o);
    SameParts(Delin(sizes, row), o, v, o);
  }

  // What the rewrite computes of a legal gather is gather for every operand exactly when the result
  // is empty or the start indices fit.
  lemma AlwaysGathersIff(operand: Tensor, start: Tensor, result: seq<nat>, g: GatherDims)
    requires WellFormed(operand, start, result, g) && BasicLegality(operand.shape, start.shape, g)
    ensures AlwaysGathers(operand, start, result, g) <==> Prod(result) == 0 || StartsFit(operand, start, result, g)
  {
    hide BasicLegality, IsGather, IsEmbedded, RowFits, Prod, Apply, Others;
    if AlwaysGathers(operand, start, result, g) && Prod(result) != 0 {
      forall b | InShape(b, BatchSizes(start.shape, g.indexVectorDim))
        ensures RowFits(operand.shape, start, g, b)
      {
        GatherMeansFitting(operand, start, result, g, b);
      }
    }
    if Prod(result) == 0 || StartsFit(operand, start, result, g) {
      forall x: Tensor, t: Tensor | x.shape == operand.shape && WellFormed(x, start, result, g) && IsEmbedded(t, x, start, result, g)
        ensures IsGather(t, x, start, result, g)
      {
        if Prod(result) == 0 {
          EmbeddedShape(t, x, start, result, g);
          EmptyIsGather(t, x, start, result, g);
        } else {
          assert StartsFit(x, start, result, g);
          FittingIsGather(t, x, start, result, g);
        }
      }
    }
  }

  // A gather of one element at start index (x, y) of a square of four.
  function PairDims(): GatherDims {
    GatherDims([], [0, 1], [], [], [0, 1], 1, [1, 1])
  }

  lemma PairIsLegal(operand: Tensor, start: Tensor)
    requires operand.Valid() && operand.shape == [2, 2] && start.Valid() && start.shape == [1, 2]
    ensures WellFormed(operand, start, [1], PairDims()) && BasicLegality(operand.shape, start.shape, PairDims()) && Prod([1]) == 1
    ensures BatchSizes(start.shape, 1) == [1]
  {
    hide Others, Apply, Prod;
    PairOthers();
    ProdOne(1);
  }

  lemma PairOthers()
    ensures Others(1, []) == [0] && Others(2, [0, 1]) == []
    ensures Apply([1], [0]) == [1] && Apply([1], []) == [] && Apply([1, 1], []) == []
  {
    OthersBelow(1, []);
    assert Interval(0, 1) == [0];
    NoOthers(2, [0, 1]);
    hide Others;
  }

  lemma {:induction false} NoOthers(rank: nat, removed: seq<nat>)
    requires forall d: nat :: d < rank ==> d in removed
    ensures Others(rank, removed) == []
  {
    if rank > 0 {
      NoOthers(rank - 1, removed);
    }
  }

  lemma PairRow(start: Tensor, x: int, y: int)
    requires start == Tensor([1, 2], [x, y])
    ensures RowFits([2, 2], start, PairDims(), [0]) <==> 2 * x + y == 2 * Clamp(x, 1) + Clamp(y, 1)
  {
    hide At, Prod, Lin, StartPosition, Sum, StrideTerm;
    PairStart(start, x, y);
    PairStrides(x, y);
    var sizes, starts := Apply([2, 2], PairDims().startIndexMap), StartVector(start, PairDims(), [0]);
    assert sizes == [2, 2] && starts == [x, y];
    assert Row([2, 2], start, PairDims(), [0]) == Sum(2, StrideTerm(sizes, starts));
    var v := ClampedVector([2, 2], start, PairDims(), [0]);
    assert v == [Clamp(x, 1), Clamp(y, 1)];
    PairLin(2, 2, Clamp(x, 1), Clamp(y, 1));
    assert Row([2, 2], start, PairDims(), [0]) == 2 * x + y;
    assert InShape(v, [2, 2]) && Lin([2, 2], v) == 2 * Clamp(x, 1) + Clamp(y, 1);
  }

  lemma PairStart(start: Tensor, x: int, y: int)
    requires start == Tensor([1, 2], [x, y])
    ensures At(start, StartPosition([0], 1, 2, 0)) == x && At(start, StartPosition([0], 1, 2, 1)) == y
  {
    hide Lin;
    PairLin(1, 2, 0, 0);
    PairLin(1, 2, 0, 1);
    assert StartPosition([0], 1, 2, 0) == [0, 0] && StartPosition([0], 1, 2, 1) == [0, 1];
  }

  lemma PairStrides(x: int, y: int)
    ensures Sum(2, StrideTerm([2, 2], [x, y])) == 2 * x + y
  {
    hide Prod;
    var f := StrideTerm([2, 2], [x, y]);
    ProdOne(2);
    ProdEmpty();
    assert [2, 2][1..] == [2] && [2, 2][2..] == [];
    assert f(0) == x * 2 && f(1) == y;
    assert Sum(2, f) == Sum(1, f) + f(1) && Sum(1, f) == Sum(0, f) + f(0);
  }

  // A start index out of bounds that does not fit: some operand is gathered wrongly.
  lemma OutOfBoundsFails(operand: Tensor)
    requires operand.Valid() && operand.shape == [2, 2]
    ensures var start := Tensor([1, 2], [0, 2]);
      WellFormed(operand, start, [1], PairDims()) && BasicLegality(operand.shape, start.shape, PairDims())
      && !AlwaysGathers(operand, start, [1], PairDims())
  {
    hide WellFormed, BasicLegality, AlwaysGathers, RowFits, Row;
    var start := Tensor([1, 2], [0, 2]);
    PairIsValid(start);
    PairIsLegal(operand, start);
    AlwaysGathersIff(operand, start, [1], PairDims());
    PairRow(start, 0, 2);
    assert InShape([0], BatchSizes(start.shape, 1));
  }

  // And one that fits, so that every operand is gathered as the specification has it.
  lemma OutOfBoundsFits(operand: Tensor)
    requires operand.Valid() && operand.shape == [2, 2]
    ensures var start := Tensor([1, 2], [-1, 3]);
      WellFormed(operand, start, [1], PairDims()) && BasicLegality(operand.shape, start.shape, PairDims())
      && AlwaysGathers(operand, start, [1], PairDims())
  {
    hide WellFormed, BasicLegality, AlwaysGathers, RowFits, Row;
    var start := Tensor([1, 2], [-1, 3]);
    PairIsValid(start);
    PairIsLegal(operand, start);
    AlwaysGathersIff(operand, start, [1], PairDims());
    PairRow(start, -1, 3);
    forall b | InShape(b, BatchSizes(start.shape, 1))
      ensures RowFits(operand.shape, start, PairDims(), b)
    {
      assert b == [0];
    }
  }

  lemma PairIsValid(start: Tensor)
    requires start.shape == [1, 2] && |start.data| == 2
    ensures start.Valid()
  {
    ProdCons(1, [2]);
    ProdOne(2);
    assert [1] + [2] == [1, 2];
  }

  lemma EmbeddedShape(t: Tensor, operand: Tensor, start: Tensor, result: seq<nat>, g: GatherDims)
    requires WellFormed(operand, start, result, g) && BasicLegality(operand.shape, start.shape, g) && IsEmbedded(t, operand, start, result, g)
    ensures t.Valid() && t.shape == result
  {}

  // `matchAndRewrite`. The rewrite of a legal gather exists exactly when some dimension is indexed or
  // the result is empty. With indexed dimensions it is the embedding, and whenever it exists and the
  // start indices fit it is gather.
  method GatherToEmbedding(operand: Tensor, start: Tensor, result: seq<nat>, g: GatherDims)
      returns (matched: bool, output: Option<Tensor>)
    requires WellFormed(operand, start, result, g)
    ensures matched <==> BasicLegality(operand.shape, start.shape, g)
    ensures matched <==>
      && (|g.startIndexMap| <= 1 || |start.shape| != 1)
      && |g.operandBatchingDims| == 0 && |g.startIndicesBatchingDims| == 0
      && |g.startIndexMap| == |g.collapsedSliceDims|
      && (forall i :: 0 <= i < |g.startIndexMap| ==> g.startIndexMap[i] == g.collapsedSliceDims[i])
      && (forall d :: 0 <= d < |operand.shape| ==> d in g.startIndexMap || g.sliceSizes[d] == operand.shape[d])
    ensures matched ==> (output.Some? <==> g.startIndexMap != [] || Prod(result) == 0)
    ensures matched && g.startIndexMap != [] ==> IsEmbedded(output.value, operand, start, result, g)
    ensures matched && output.Some? && StartsFit(operand, start, result, g) ==> IsGather(output.value, operand, start, result, g)
    ensures matched && output.Some? && InBounds(operand, start, g) ==> IsGather(output.value, operand, start, result, g)
  {
    hide At, Lin, Prod, Others, Permute, Embedding, HoldsRows, InBounds, IsGather, IsEmbedded, StartsFit, Flattened, Apply;
    output := None;
    matched := CheckBasicLegality(operand.shape, start.shape, g);
    if !matched {
      return;
    }
    var permutedShape: seq<nat>, weights: Tensor := EmbeddingWeights(operand, g.startIndexMap);
    WeightsShape(operand, g.startIndexMap);
    var numIndexingDims := |g.startIndexMap|;
    var indices := start;
    if numIndexingDims > 1 {
      indices := TransformStartIndices(operand, start, permutedShape, g);
    }
    if numIndexingDims == 0 {
      output := EmbedNothing(operand, start, result, g, weights);
    } else {
      if numIndexingDims == 1 {
        OneIndexHoldsRows(operand, start, g);
      }
      output := EmbedAndRestore(operand, start, result, g, indices, weights);
      if InBounds(operand, start, g) {
        InBoundsFits(operand, start, result, g);
      }
      if StartsFit(operand, start, result, g) {
        FittingIsGather(output.value, operand, start, result, g);
      }
    }
  }

  // A legal gather, in bounds, that indexes nothing and has a result: it matches and has no rewrite.
  method NothingIndexedFails(operand: Tensor) returns (matched: bool, output: Option<Tensor>)
    requires operand.Valid() && operand.shape == [2]
    ensures matched && output.None?
  {
    var start, g := Tensor([0], []), GatherDims([0], [], [], [], [], 0, [2]);
    NothingIndexed(operand, start, g);
    matched, output := GatherToEmbedding(operand, start, [2], g);
  }

  lemma NothingIndexed(operand: Tensor, start: Tensor, g: GatherDims)
    requires operand.Valid() && operand.shape == [2] && start == Tensor([0], [])
    requires g == GatherDims([0], [], [], [], [], 0, [2])
    ensures WellFormed(operand, start, [2], g) && InBounds(operand, start, g)
    ensures BasicLegality(operand.shape, start.shape, g) && Prod([2]) != 0
  {
    assert Others(0, [0]) == [] && Others(1, [0]) == [];
    assert Others(0, []) == [] && Others(1, []) == [0];
    assert BatchSizes(start.shape, 0) == [];
    assert Apply([2], [0]) == [2] && Apply([2], []) == [];
    assert Prod([0]) == 0 && Prod([2]) == 2 by {
      ProdOne(0);
      ProdOne(2);
    }
  }

  // The same last steps when no dimension is indexed.
  method EmbedNothing(operand: Tensor, start: Tensor, result: seq<nat>, g: GatherDims, weights: Tensor) returns (output: Option<Tensor>)
    requires WellFormed(operand, start, result, g) && g.startIndexMap == [] && weights.Valid() && |weights.shape| == 2
    ensures output.Some? <==> Prod(result) == 0
    ensures output.Some? ==> IsGather(output.value, operand, start, result, g)
  {
    hide At, Lin, Prod, Others, Permute, Embedding, IsGather, Apply;
    var flat := FlattenIndices(start);
    NoIndexIsEmpty(operand, start, result, g);
    var embedded := Embedding(flat, weights);
    ProdAppend(flat.shape, weights.shape[1]);
    output := ReshapeAndPermuteOutput(embedded, result, g.offsetDims);
    ghost var perm := Others(|result|, g.offsetDims) + g.offsetDims;
    PermutedEmpty(result, perm);
    if output.Some? {
      ApplyInverse(result, perm);
      EmptyIsGather(output.value, operand, start, result, g);
    }
  }
}
