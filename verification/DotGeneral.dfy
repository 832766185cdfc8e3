/** `DotGeneralToMatmulConversionPattern`: dot_general as permute, reshape, matmul, reshape. */
module DotGeneral {
  import opened Shapes
  import opened Permutations
  import opened Tensors

  datatype DotDims = DotDims(lhsBatch: seq<nat>, lhsContract: seq<nat>, rhsBatch: seq<nat>, rhsContract: seq<nat>)

  // Batching and contracting dimensions of one operand: in range, unique, disjoint.
  ghost predicate LegalDims(rank: nat, batch: seq<nat>, contract: seq<nat>) {
    && InRange(batch, rank) && InRange(contract, rank)
    && Distinct(batch) && Distinct(contract)
    && forall x :: x in batch ==> x !in contract
  }

  // The constraints section 'dot_general' of the StableHLO specification puts on the op.
  ghost predicate Legal(lhs: Tensor, rhs: Tensor, d: DotDims) {
    && lhs.Valid() && rhs.Valid()
    && LegalDims(|lhs.shape|, d.lhsBatch, d.lhsContract)
    && LegalDims(|rhs.shape|, d.rhsBatch, d.rhsContract)
    && Apply(lhs.shape, d.lhsBatch) == Apply(rhs.shape, d.rhsBatch)
    && Apply(lhs.shape, d.lhsContract) == Apply(rhs.shape, d.rhsContract)
  }

  lemma OthersCount(rank: nat, batch: seq<nat>, contract: seq<nat>)
    requires LegalDims(rank, batch, contract)
    ensures |batch| + |Others(rank, batch + contract)| + |contract| == rank
  {
    var o := Others(rank, batch + contract);
    OthersMembers(rank, batch + contract);
    DistinctCardinality(batch);
    DistinctCardinality(contract);
    DistinctCardinality(o);
    assert Elements(batch) + Elements(o) + Elements(contract) == Below(rank);
    assert Elements(o) !! Elements(batch) && Elements(batch) !! Elements(contract);
  }

  function EraseFirst(s: seq<nat>, d: nat): seq<nat> {
    if d in s then s[..IndexOf(s, d)] + s[IndexOf(s, d) + 1..] else s
  }

  lemma EraseFirstAppend(s: seq<nat>, x: nat, d: nat)
    ensures d in s ==> EraseFirst(s + [x], d) == EraseFirst(s, d) + [x]
    ensures d !in s ==> EraseFirst(s + [x], d) == if x == d then s else s + [x]
  {
    if d in s + [x] {
      var i := IndexOf(s + [x], d);
      if d in s {
        var j := IndexOf(s, d);
        assert (s + [x])[j] == d;
        assert i == j;
        assert (s + [x])[..i] + (s + [x])[i + 1..] == s[..i] + s[i + 1..] + [x];
      } else {
        assert (s + [x])[..i] + (s + [x])[i + 1..] == s;
      }
    }
  }

  lemma {:induction false} OthersErase(rank: nat, removed: seq<nat>, d: nat)
    ensures Others(rank, removed + [d]) == EraseFirst(Others(rank, removed), d)
  {
    hide EraseFirst;
    if rank > 0 {
      OthersErase(rank - 1, removed, d);
      OthersEraseStep(rank - 1, removed, d, Others(rank - 1, removed), Others(rank - 1, removed + [d]));
    } else {
      EraseFirstEmpty(d);
    }
  }

  lemma EraseFirstEmpty(d: nat)
    ensures EraseFirst([], d) == []
  {}

  lemma OthersEraseStep(last: nat, removed: seq<nat>, d: nat, before: seq<nat>, after: seq<nat>)
    requires InRange(before, last) && after == EraseFirst(before, d)
    ensures (if last in removed + [d] then after else after + [last])
         == EraseFirst(if last in removed then before else before + [last], d)
  {
    EraseFirstAppend(before, last, d);
    assert (last in removed + [d]) == (last in removed || last == d);
    assert last !in before;
  }

  // Erasing the first occurrence of every dimension in `gone`, as both loops of `getResultDims` do.
  method EraseDims(dims: seq<nat>, gone: seq<nat>, ghost rank: nat, ghost removed: seq<nat>) returns (left: seq<nat>)
    requires dims == Others(rank, removed)
    ensures left == Others(rank, removed + gone)
  {
    left := dims;
    assert removed + gone[..0] == removed;
    for i := 0 to |gone|
      invariant left == Others(rank, removed + gone[..i])
    {
      OthersErase(rank, removed + gone[..i], gone[i]);
      assert removed + gone[..i + 1] == removed + gone[..i] + [gone[i]];
      var before := left;
      var j := 0;
      while j < |left|
        invariant 0 <= j <= |left| && left == before
        invariant gone[i] !in left[..j]
      {
        if left[j] == gone[i] {
          assert IndexOf(before, gone[i]) == j;
          left := left[..j] + left[j + 1..];
          break;
        }
        j := j + 1;
      }
    }
    assert gone[..|gone|] == gone;
  }

  // `getResultDims`.
  method GetResultDims(batchDims: seq<nat>, contractDims: seq<nat>, rank: nat) returns (allDims: seq<nat>)
    ensures allDims == Others(rank, batchDims + contractDims)
  {
    allDims := [];
    for i := 0 to rank
      invariant allDims == Others(i, [])
    {
      allDims := allDims + [i];
    }
    allDims := EraseDims(allDims, batchDims, rank, []);
    allDims := EraseDims(allDims, contractDims, rank, [] + batchDims);
    assert [] + batchDims + contractDims == batchDims + contractDims;
  }

  // `computeProductOfDims`.
  method ComputeProductOfDims(tensorShape: seq<nat>, dims: seq<nat>) returns (product: nat)
    requires InRange(dims, |tensorShape|)
    ensures product == Prod(Apply(tensorShape, dims))
  {
    product := 1;
    for i := 0 to |dims|
      invariant product == Prod(Apply(tensorShape, dims[..i]))
    {
      assert Apply(tensorShape, dims[..i + 1]) == Apply(tensorShape, dims[..i]) + [tensorShape[dims[i]]];
      ProdConcat(Apply(tensorShape, dims[..i]), [tensorShape[dims[i]]]);
      ProdOne(tensorShape[dims[i]]);
      product := product * tensorShape[dims[i]];
    }
    assert dims[..|dims|] == dims;
  }

  // `computeMatmulInputShape`.
  method ComputeMatmulInputShape(tensorShape: seq<nat>, batchDims: seq<nat>, dims1: seq<nat>, dims2: seq<nat>)
      returns (finalShape: seq<nat>)
    requires InRange(batchDims, |tensorShape|) && InRange(dims1, |tensorShape|) && InRange(dims2, |tensorShape|)
    ensures finalShape == Apply(tensorShape, batchDims) + [Prod(Apply(tensorShape, dims1)), Prod(Apply(tensorShape, dims2))]
  {
    var p1 := ComputeProductOfDims(tensorShape, dims1);
    var p2 := ComputeProductOfDims(tensorShape, dims2);
    finalShape := Apply(tensorShape, batchDims) + [p1, p2];
  }

  // ---- dot_general as the StableHLO specification defines it ----

  // The operand index with `b` on the batching, `c` on the contracting and `r` on the other dimensions.
  function OperandIndex(rank: nat, batch: seq<nat>, contract: seq<nat>, b: seq<nat>, c: seq<nat>, r: seq<nat>): (idx: seq<nat>)
    requires |b| == |batch| && |c| == |contract| && |r| == |Others(rank, batch + contract)|
    ensures |idx| == rank
  {
    OthersMembers(rank, batch + contract);
    seq(rank, d requires 0 <= d < rank =>
      if d in batch then b[IndexOf(batch, d)]
      else if d in contract then c[IndexOf(contract, d)]
      else r[IndexOf(Others(rank, batch + contract), d)])
  }

  function DotTerm(lhs: Tensor, rhs: Tensor, d: DotDims, b: seq<nat>, l: seq<nat>, r: seq<nat>): seq<nat> -> int
    requires |b| == |d.lhsBatch| == |d.rhsBatch| && |d.lhsContract| == |d.rhsContract|
    requires |l| == |Others(|lhs.shape|, d.lhsBatch + d.lhsContract)|
    requires |r| == |Others(|rhs.shape|, d.rhsBatch + d.rhsContract)|
  {
    (c: seq<nat>) =>
      if |c| == |d.lhsContract| then
        At(lhs, OperandIndex(|lhs.shape|, d.lhsBatch, d.lhsContract, b, c, l)) *
        At(rhs, OperandIndex(|rhs.shape|, d.rhsBatch, d.rhsContract, b, c, r))
      else 0
  }

  // The sizes of the dimensions of an operand that are neither batching nor contracting.
  function ResultSizes(shape: seq<nat>, batch: seq<nat>, contract: seq<nat>): seq<nat> {
    Apply(shape, Others(|shape|, batch + contract))
  }

  // `t` is dot_general of the operands: at result index b ++ l ++ r the sum, over the whole
  // contracting multi-index, of the products of the operand elements it selects.
  ghost predicate IsDotGeneral(t: Tensor, lhs: Tensor, rhs: Tensor, d: DotDims)
    requires Legal(lhs, rhs, d)
  {
    var bs := Apply(lhs.shape, d.lhsBatch);
    var ls := ResultSizes(lhs.shape, d.lhsBatch, d.lhsContract);
    var rs := ResultSizes(rhs.shape, d.rhsBatch, d.rhsContract);
    && t.Valid()
    && t.shape == bs + ls + rs
    && forall b: seq<nat>, l: seq<nat>, r: seq<nat> :: InShape(b, bs) && InShape(l, ls) && InShape(r, rs) ==>
         At(t, b + l + r) == SumOver(Apply(lhs.shape, d.lhsContract), DotTerm(lhs, rhs, d, b, l, r))
  }

  // The relation pins the result down.
  lemma DotGeneralUnique(t: Tensor, u: Tensor, lhs: Tensor, rhs: Tensor, d: DotDims)
    requires Legal(lhs, rhs, d) && IsDotGeneral(t, lhs, rhs, d) && IsDotGeneral(u, lhs, rhs, d)
    ensures t == u
  {
    var bs := Apply(lhs.shape, d.lhsBatch);
    var ls := ResultSizes(lhs.shape, d.lhsBatch, d.lhsContract);
    var rs := ResultSizes(rhs.shape, d.rhsBatch, d.rhsContract);
    forall idx | InShape(idx, t.shape)
      ensures At(t, idx) == At(u, idx)
    {
      InShapeSplit(bs + ls, rs, idx);
      var front, r := idx[..|bs + ls|], idx[|bs + ls|..];
      InShapeSplit(bs, ls, front);
      assert idx == front[..|bs|] + front[|bs|..] + r;
    }
    TensorExtensionality(t, u);
  }

  // ---- the rewrite ----

  // Batch, result and contracting dimensions, in either order the rewrite uses, are a permutation.
  lemma PermutationOfParts(rank: nat, batch: seq<nat>, contract: seq<nat>)
    requires LegalDims(rank, batch, contract)
    ensures IsPerm(batch + Others(rank, batch + contract) + contract)
    ensures IsPerm(batch + contract + Others(rank, batch + contract))
    ensures |batch + Others(rank, batch + contract) + contract| == rank
  {
    var o := Others(rank, batch + contract);
    OthersCount(rank, batch, contract);
    OthersMembers(rank, batch + contract);
    forall i | 0 <= i < |o|
      ensures o[i] !in batch && o[i] !in contract
    {
      assert o[i] in o;
      assert o[i] !in batch + contract;
    }
    assert forall i :: 0 <= i < |batch| ==> batch[i] in batch;
    assert forall i :: 0 <= i < |contract| ==> contract[i] in contract;
    DistinctParts(batch, o, contract);
    DistinctParts(batch, contract, o);
  }

  lemma DistinctParts(a: seq<nat>, b: seq<nat>, c: seq<nat>)
    requires Distinct(a) && Distinct(b) && Distinct(c)
    requires forall i, j :: 0 <= i < |a| && 0 <= j < |b| ==> a[i] != b[j]
    requires forall i, j :: 0 <= i < |a| && 0 <= j < |c| ==> a[i] != c[j]
    requires forall i, j :: 0 <= i < |b| && 0 <= j < |c| ==> b[i] != c[j]
    ensures Distinct(a + b + c)
  {}

  lemma OperandIndexParts(rank: nat, batch: seq<nat>, contract: seq<nat>, b: seq<nat>, c: seq<nat>, r: seq<nat>)
    requires LegalDims(rank, batch, contract)
    requires |b| == |batch| && |c| == |contract| && |r| == |Others(rank, batch + contract)|
    ensures forall i :: 0 <= i < |batch| ==> OperandIndex(rank, batch, contract, b, c, r)[batch[i]] == b[i]
    ensures forall i :: 0 <= i < |contract| ==> OperandIndex(rank, batch, contract, b, c, r)[contract[i]] == c[i]
    ensures var o := Others(rank, batch + contract);
            forall i :: 0 <= i < |o| ==> OperandIndex(rank, batch, contract, b, c, r)[o[i]] == r[i]
  {
    hide OperandIndex, IndexOf, Others;
    var o := Others(rank, batch + contract);
    OthersMembers(rank, batch + contract);
    forall i | 0 <= i < |batch|
      ensures OperandIndex(rank, batch, contract, b, c, r)[batch[i]] == b[i]
    {
      OperandIndexAt(rank, batch, contract, b, c, r, batch[i]);
      IndexOfDistinct(batch, i);
    }
    forall i | 0 <= i < |contract|
      ensures OperandIndex(rank, batch, contract, b, c, r)[contract[i]] == c[i]
    {
      OperandIndexAt(rank, batch, contract, b, c, r, contract[i]);
      IndexOfDistinct(contract, i);
    }
    forall i | 0 <= i < |o|
      ensures OperandIndex(rank, batch, contract, b, c, r)[o[i]] == r[i]
    {
      assert o[i] in o;
      OperandIndexAt(rank, batch, contract, b, c, r, o[i]);
      IndexOfDistinct(o, i);
    }
  }

  lemma IndexOfDistinct(s: seq<nat>, i: nat)
    requires Distinct(s) && i < |s|
    ensures s[i] in s && IndexOf(s, s[i]) == i
  {}

  lemma OperandIndexAt(rank: nat, batch: seq<nat>, contract: seq<nat>, b: seq<nat>, c: seq<nat>, r: seq<nat>, d: nat)
    requires |b| == |batch| && |c| == |contract| && |r| == |Others(rank, batch + contract)| && d < rank
    ensures d in batch || d in contract || d in Others(rank, batch + contract)
    ensures OperandIndex(rank, batch, contract, b, c, r)[d]
         == if d in batch then b[IndexOf(batch, d)]
            else if d in contract then c[IndexOf(contract, d)]
            else r[IndexOf(Others(rank, batch + contract), d)]
  {
    hide IndexOf, Others;
    OthersMembers(rank, batch + contract);
  }

  // Scattering the three index groups gives the specification's operand index, whichever of the
  // two layouts the operand was permuted to.
  lemma ScatterIsOperandIndex(rank: nat, batch: seq<nat>, contract: seq<nat>, b: seq<nat>, c: seq<nat>, r: seq<nat>)
    requires LegalDims(rank, batch, contract)
    requires |b| == |batch| && |c| == |contract| && |r| == |Others(rank, batch + contract)|
    requires IsPerm(batch + Others(rank, batch + contract) + contract)
    requires IsPerm(batch + contract + Others(rank, batch + contract))
    ensures Scatter(batch + Others(rank, batch + contract) + contract, b + r + c) == OperandIndex(rank, batch, contract, b, c, r)
    ensures Scatter(batch + contract + Others(rank, batch + contract), b + c + r) == OperandIndex(rank, batch, contract, b, c, r)
  {
    var o := Others(rank, batch + contract);
    var idx := OperandIndex(rank, batch, contract, b, c, r);
    OthersCount(rank, batch, contract);
    OperandIndexParts(rank, batch, contract, b, c, r);
    ScatterOfParts(batch, o, contract, b, r, c, idx);
    ScatterOfParts(batch, contract, o, b, c, r, idx);
  }

  lemma ScatterOfParts(p: seq<nat>, q: seq<nat>, s: seq<nat>, x: seq<nat>, y: seq<nat>, z: seq<nat>, idx: seq<nat>)
    requires |p| == |x| && |q| == |y| && |s| == |z| && IsPerm(p + q + s) && |idx| == |p + q + s|
    requires InRange(p, |idx|) && InRange(q, |idx|) && InRange(s, |idx|)
    requires forall i :: 0 <= i < |p| ==> idx[p[i]] == x[i]
    requires forall i :: 0 <= i < |q| ==> idx[q[i]] == y[i]
    requires forall i :: 0 <= i < |s| ==> idx[s[i]] == z[i]
    ensures Scatter(p + q + s, x + y + z) == idx
  {
    ScatterUnique(p + q + s, x + y + z, idx);
  }

  // The left matmul operand: (batch, result, contract), the last two groups flattened.
  function LhsFlat(lhs: Tensor, rhs: Tensor, d: DotDims): (r: Tensor)
    requires Legal(lhs, rhs, d)
    ensures r.Valid()
    ensures r.shape == Apply(lhs.shape, d.lhsBatch)
                       + [Prod(ResultSizes(lhs.shape, d.lhsBatch, d.lhsContract)), Prod(Apply(lhs.shape, d.lhsContract))]
  {
    PermutationOfParts(|lhs.shape|, d.lhsBatch, d.lhsContract);
    Flattened(lhs, d.lhsBatch, Others(|lhs.shape|, d.lhsBatch + d.lhsContract), d.lhsContract)
  }

  // The right matmul operand: (batch, contract, result), the last two groups flattened.
  function RhsFlat(lhs: Tensor, rhs: Tensor, d: DotDims): (r: Tensor)
    requires Legal(lhs, rhs, d)
    ensures r.Valid()
    ensures r.shape == Apply(lhs.shape, d.lhsBatch)
                       + [Prod(Apply(lhs.shape, d.lhsContract)), Prod(ResultSizes(rhs.shape, d.rhsBatch, d.rhsContract))]
  {
    PermutationOfParts(|rhs.shape|, d.rhsBatch, d.rhsContract);
    Flattened(rhs, d.rhsBatch, d.rhsContract, Others(|rhs.shape|, d.rhsBatch + d.rhsContract))
  }

  lemma LhsFlatCell(lhs: Tensor, rhs: Tensor, d: DotDims, b: seq<nat>, l: seq<nat>, c: seq<nat>)
    requires Legal(lhs, rhs, d)
    requires InShape(b, Apply(lhs.shape, d.lhsBatch))
    requires InShape(l, ResultSizes(lhs.shape, d.lhsBatch, d.lhsContract))
    requires InShape(c, Apply(lhs.shape, d.lhsContract))
    ensures At(LhsFlat(lhs, rhs, d), b + [Lin(ResultSizes(lhs.shape, d.lhsBatch, d.lhsContract), l), Lin(Apply(lhs.shape, d.lhsContract), c)])
         == At(lhs, OperandIndex(|lhs.shape|, d.lhsBatch, d.lhsContract, b, c, l))
  {
    PermutationOfParts(|lhs.shape|, d.lhsBatch, d.lhsContract);
    FlattenedCell(lhs, d.lhsBatch, Others(|lhs.shape|, d.lhsBatch + d.lhsContract), d.lhsContract, b, l, c);
    ScatterIsOperandIndex(|lhs.shape|, d.lhsBatch, d.lhsContract, b, c, l);
  }

  lemma RhsFlatCell(lhs: Tensor, rhs: Tensor, d: DotDims, b: seq<nat>, c: seq<nat>, r: seq<nat>)
    requires Legal(lhs, rhs, d)
    requires InShape(b, Apply(lhs.shape, d.lhsBatch)) && InShape(c, Apply(lhs.shape, d.lhsContract))
    requires InShape(r, ResultSizes(rhs.shape, d.rhsBatch, d.rhsContract))
    ensures |d.lhsBatch| == |d.rhsBatch| && |d.lhsContract| == |d.rhsContract|
    ensures At(RhsFlat(lhs, rhs, d), b + [Lin(Apply(lhs.shape, d.lhsContract), c), Lin(ResultSizes(rhs.shape, d.rhsBatch, d.rhsContract), r)])
         == At(rhs, OperandIndex(|rhs.shape|, d.rhsBatch, d.rhsContract, b, c, r))
  {
    assert |Apply(lhs.shape, d.lhsBatch)| == |Apply(rhs.shape, d.rhsBatch)|;
    assert |Apply(lhs.shape, d.lhsContract)| == |Apply(rhs.shape, d.rhsContract)|;
    PermutationOfParts(|rhs.shape|, d.rhsBatch, d.rhsContract);
    FlattenedCell(rhs, d.rhsBatch, d.rhsContract, Others(|rhs.shape|, d.rhsBatch + d.rhsContract), b, c, r);
    ScatterIsOperandIndex(|rhs.shape|, d.rhsBatch, d.rhsContract, b, c, r);
  }

  // One cell of the product of the flattened operands is the full contraction.
  lemma MatmulCell(lhs: Tensor, rhs: Tensor, d: DotDims, b: seq<nat>, l: seq<nat>, r: seq<nat>)
    requires Legal(lhs, rhs, d) && SameParts(lhs, rhs, d)
    requires InShape(b, Apply(lhs.shape, d.lhsBatch))
    requires InShape(l, ResultSizes(lhs.shape, d.lhsBatch, d.lhsContract))
    requires InShape(r, ResultSizes(rhs.shape, d.rhsBatch, d.rhsContract))
    ensures var cs := Apply(lhs.shape, d.lhsContract);
            var m := Lin(ResultSizes(lhs.shape, d.lhsBatch, d.lhsContract), l);
            var n := Lin(ResultSizes(rhs.shape, d.rhsBatch, d.rhsContract), r);
            Sum(Prod(cs), MatmulTerm(LhsFlat(lhs, rhs, d), RhsFlat(lhs, rhs, d), b, m, n)) == SumOver(cs, DotTerm(lhs, rhs, d, b, l, r))
  {
    var cs := Apply(lhs.shape, d.lhsContract);
    var m := Lin(ResultSizes(lhs.shape, d.lhsBatch, d.lhsContract), l);
    var n := Lin(ResultSizes(rhs.shape, d.rhsBatch, d.rhsContract), r);
    var lf, rf := LhsFlat(lhs, rhs, d), RhsFlat(lhs, rhs, d);
    var f := DotTerm(lhs, rhs, d, b, l, r);
    forall c | InShape(c, cs)
      ensures At(lf, b + [m, Lin(cs, c)]) * At(rf, b + [Lin(cs, c), n]) == f(c)
    {
      LhsFlatCell(lhs, rhs, d, b, l, c);
      RhsFlatCell(lhs, rhs, d, b, c, r);
    }
    ContractCell(lf, rf, cs, f, b, m, n);
  }

  // As many batching and contracting dimensions on both sides.
  predicate SameParts(lhs: Tensor, rhs: Tensor, d: DotDims) {
    |d.lhsBatch| == |d.rhsBatch| && |d.lhsContract| == |d.rhsContract|
  }

  lemma LegalSameParts(lhs: Tensor, rhs: Tensor, d: DotDims)
    requires Legal(lhs, rhs, d)
    ensures SameParts(lhs, rhs, d)
  {
    assert |Apply(lhs.shape, d.lhsBatch)| == |Apply(rhs.shape, d.rhsBatch)|;
    assert |Apply(lhs.shape, d.lhsContract)| == |Apply(rhs.shape, d.rhsContract)|;
  }

  // The rewrite of `matchAndRewrite`, evaluated on the operands.
  method DotGeneralToMatmul(lhs: Tensor, rhs: Tensor, d: DotDims) returns (result: Tensor)
    requires Legal(lhs, rhs, d)
    ensures IsDotGeneral(result, lhs, rhs, d)
  {
    var lhsResultDims := GetResultDims(d.lhsBatch, d.lhsContract, |lhs.shape|);
    var rhsResultDims := GetResultDims(d.rhsBatch, d.rhsContract, |rhs.shape|);
    PermutationOfParts(|lhs.shape|, d.lhsBatch, d.lhsContract);
    PermutationOfParts(|rhs.shape|, d.rhsBatch, d.rhsContract);
    var lhsPermuted := Permute(lhs, d.lhsBatch + lhsResultDims + d.lhsContract);
    var rhsPermuted := Permute(rhs, d.rhsBatch + d.rhsContract + rhsResultDims);
    var lhsMatmulInputShape := ComputeMatmulInputShape(lhs.shape, d.lhsBatch, lhsResultDims, d.lhsContract);
    var rhsMatmulInputShape := ComputeMatmulInputShape(rhs.shape, d.rhsBatch, d.rhsContract, rhsResultDims);
    ghost var lf, rf := LhsFlat(lhs, rhs, d), RhsFlat(lhs, rhs, d);
    assert Prod(lhsMatmulInputShape) == |lf.data| && Prod(rhsMatmulInputShape) == |rf.data|;
    var lhsMatmulInput := Reshape(lhsPermuted, lhsMatmulInputShape);
    var rhsMatmulInput := Reshape(rhsPermuted, rhsMatmulInputShape);
    assert lhsMatmulInput == lf && rhsMatmulInput == rf;
    result := MultiplyAndUnflatten(lhs, rhs, d, lhsMatmulInput, rhsMatmulInput, lhsResultDims, rhsResultDims);
  }

  // The matmul and the final reshape, which unrolls both flattened result groups.
  method MultiplyAndUnflatten(lhs: Tensor, rhs: Tensor, d: DotDims, lhsMatmulInput: Tensor, rhsMatmulInput: Tensor,
                              lhsResultDims: seq<nat>, rhsResultDims: seq<nat>) returns (result: Tensor)
    requires Legal(lhs, rhs, d)
    requires lhsMatmulInput == LhsFlat(lhs, rhs, d) && rhsMatmulInput == RhsFlat(lhs, rhs, d)
    requires lhsResultDims == Others(|lhs.shape|, d.lhsBatch + d.lhsContract)
    requires rhsResultDims == Others(|rhs.shape|, d.rhsBatch + d.rhsContract)
    ensures IsDotGeneral(result, lhs, rhs, d)
  {
    var bs, ls, rs := Apply(lhs.shape, d.lhsBatch), Apply(lhs.shape, lhsResultDims), Apply(rhs.shape, rhsResultDims);
    BatchedMatmulShape(lhsMatmulInput, rhsMatmulInput, bs, Prod(ls), Prod(Apply(lhs.shape, d.lhsContract)), Prod(rs));
    var product := Matmul(lhsMatmulInput, rhsMatmulInput);
    FlattenTwoProd(bs, ls, rs);
    result := Reshape(product, bs + ls + rs);
    ResultCells(lhs, rhs, d, product, result);
  }

  // Unrolling both flattened result groups of the product gives dot_general.
  lemma ResultCells(lhs: Tensor, rhs: Tensor, d: DotDims, product: Tensor, result: Tensor)
    requires Legal(lhs, rhs, d)
    requires MatmulShapes(LhsFlat(lhs, rhs, d).shape, RhsFlat(lhs, rhs, d).shape)
    requires product == Matmul(LhsFlat(lhs, rhs, d), RhsFlat(lhs, rhs, d))
    requires product.shape == Apply(lhs.shape, d.lhsBatch)
               + [Prod(ResultSizes(lhs.shape, d.lhsBatch, d.lhsContract)), Prod(ResultSizes(rhs.shape, d.rhsBatch, d.rhsContract))]
    requires result.Valid() && result.data == product.data
    requires result.shape == Apply(lhs.shape, d.lhsBatch) + ResultSizes(lhs.shape, d.lhsBatch, d.lhsContract)
                             + ResultSizes(rhs.shape, d.rhsBatch, d.rhsContract)
    ensures IsDotGeneral(result, lhs, rhs, d)
  {
    LegalSameParts(lhs, rhs, d);
    var bs := Apply(lhs.shape, d.lhsBatch);
    var ls := ResultSizes(lhs.shape, d.lhsBatch, d.lhsContract);
    var rs := ResultSizes(rhs.shape, d.rhsBatch, d.rhsContract);
    forall b: seq<nat>, l: seq<nat>, r: seq<nat> | InShape(b, bs) && InShape(l, ls) && InShape(r, rs)
      ensures At(result, b + l + r) == SumOver(Apply(lhs.shape, d.lhsContract), DotTerm(lhs, rhs, d, b, l, r))
    {
      UnflattenCell(product, result, bs, ls, rs, b, l, r);
      ProductCell(lhs, rhs, d, b, l, r);
    }
  }

  lemma ProductCell(lhs: Tensor, rhs: Tensor, d: DotDims, b: seq<nat>, l: seq<nat>, r: seq<nat>)
    requires Legal(lhs, rhs, d) && SameParts(lhs, rhs, d)
    requires MatmulShapes(LhsFlat(lhs, rhs, d).shape, RhsFlat(lhs, rhs, d).shape)
    requires InShape(b, Apply(lhs.shape, d.lhsBatch))
    requires InShape(l, ResultSizes(lhs.shape, d.lhsBatch, d.lhsContract))
    requires InShape(r, ResultSizes(rhs.shape, d.rhsBatch, d.rhsContract))
    ensures var m := Lin(ResultSizes(lhs.shape, d.lhsBatch, d.lhsContract), l);
            var n := Lin(ResultSizes(rhs.shape, d.rhsBatch, d.rhsContract), r);
            At(Matmul(LhsFlat(lhs, rhs, d), RhsFlat(lhs, rhs, d)), b + [m, n])
              == SumOver(Apply(lhs.shape, d.lhsContract), DotTerm(lhs, rhs, d, b, l, r))
  {
    var ls := ResultSizes(lhs.shape, d.lhsBatch, d.lhsContract);
    var rs := ResultSizes(rhs.shape, d.rhsBatch, d.rhsContract);
    AtBatchedMatmul(LhsFlat(lhs, rhs, d), RhsFlat(lhs, rhs, d), Apply(lhs.shape, d.lhsBatch), Prod(ls),
                    Prod(Apply(lhs.shape, d.lhsContract)), Prod(rs), b, Lin(ls, l), Lin(rs, r));
    MatmulCell(lhs, rhs, d, b, l, r);
  }
}
