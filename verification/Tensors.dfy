/** Tensors as a shape and its elements in row-major order, and the meaning of the TTIR
    and linalg ops the rewrites are built from. Elements are integers. */
module Tensors {
  import opened Shapes
  import opened Permutations

  datatype Tensor = Tensor(shape: seq<nat>, data: seq<int>) {
    ghost predicate Valid() {
      |data| == Prod(shape)
    }
  }

  // The element at a multi-index; zero outside the tensor.
  function At(t: Tensor, idx: seq<nat>): int {
    if InShape(idx, t.shape) && Lin(t.shape, idx) < |t.data| then t.data[Lin(t.shape, idx)] else 0
  }

  // The tensor whose element at `idx` is `f(idx)`.
  function Build(shape: seq<nat>, f: seq<nat> -> int): (t: Tensor)
    ensures t.shape == shape && t.Valid()
    ensures forall k :: 0 <= k < Prod(shape) ==> t.data[k] == f(Delin(shape, k))
  {
    Tensor(shape, seq(Prod(shape), k requires 0 <= k < Prod(shape) => f(Delin(shape, k))))
  }

  lemma AtBuild(shape: seq<nat>, f: seq<nat> -> int, idx: seq<nat>)
    requires InShape(idx, shape)
    ensures At(Build(shape, f), idx) == f(idx)
  {
    DelinLin(shape, idx);
  }

  // One at one index and zero elsewhere.
  function Impulse(shape: seq<nat>, e: seq<nat>): (t: Tensor)
    ensures t.Valid() && t.shape == shape
  {
    Build(shape, (idx: seq<nat>) => if idx == e then 1 else 0)
  }

  lemma AtImpulse(shape: seq<nat>, e: seq<nat>, idx: seq<nat>)
    requires InShape(e, shape)
    ensures At(Impulse(shape, e), idx) == if idx == e then 1 else 0
  {
    if InShape(idx, shape) {
      AtBuild(shape, (x: seq<nat>) => if x == e then 1 else 0, idx);
    }
  }

  // Two tensors of one shape with the same elements at every multi-index are equal.
  lemma TensorExtensionality(a: Tensor, b: Tensor)
    requires a.Valid() && b.Valid() && a.shape == b.shape
    requires forall idx :: InShape(idx, a.shape) ==> At(a, idx) == At(b, idx)
    ensures a == b
  {
    forall k | 0 <= k < |a.data|
      ensures a.data[k] == b.data[k]
    {
      var idx := Delin(a.shape, k);
      assert At(a, idx) == a.data[k] && At(b, idx) == b.data[k];
    }
  }

  // ttir.reshape: same elements, other shape.
  function Reshape(t: Tensor, shape: seq<nat>): (r: Tensor)
    requires t.Valid() && Prod(shape) == Prod(t.shape)
    ensures r.Valid()
  {
    Tensor(shape, t.data)
  }

  lemma AtReshape(t: Tensor, shape: seq<nat>, idx: seq<nat>, src: seq<nat>)
    requires t.Valid() && Prod(shape) == Prod(t.shape)
    requires InShape(idx, shape) && InShape(src, t.shape) && Lin(shape, idx) == Lin(t.shape, src)
    ensures At(Reshape(t, shape), idx) == At(t, src)
  {}

  // The index vector with value vals[i] on dimension dims[i].
  function Scatter(dims: seq<nat>, vals: seq<nat>): (idx: seq<nat>)
    requires IsPerm(dims) && |vals| == |dims|
    ensures |idx| == |dims| && forall i :: 0 <= i < |dims| ==> idx[dims[i]] == vals[i]
  {
    Apply(vals, Inverse(dims))
  }

  lemma ScatterInShape(shape: seq<nat>, dims: seq<nat>, vals: seq<nat>)
    requires IsPerm(dims) && |dims| == |shape| && InShape(vals, Apply(shape, dims))
    ensures InShape(Scatter(dims, vals), shape)
  {
    forall d | 0 <= d < |shape|
      ensures Scatter(dims, vals)[d] < shape[d]
    {
      var i := Inverse(dims)[d];
      assert Scatter(dims, vals)[d] == vals[i] && shape[dims[i]] == shape[d];
    }
  }

  lemma ScatterUnique(dims: seq<nat>, vals: seq<nat>, idx: seq<nat>)
    requires IsPerm(dims) && |vals| == |dims| == |idx|
    requires forall i :: 0 <= i < |dims| ==> idx[dims[i]] == vals[i]
    ensures idx == Scatter(dims, vals)
  {
    forall d | 0 <= d < |idx|
      ensures idx[d] == Scatter(dims, vals)[d]
    {
      assert dims[Inverse(dims)[d]] == d;
    }
  }

  // ttir.permute: dimension i of the result is dimension perm[i] of the input.
  function Permute(t: Tensor, perm: seq<nat>): (r: Tensor)
    requires t.Valid() && IsPerm(perm) && |perm| == |t.shape|
    ensures r.Valid() && r.shape == Apply(t.shape, perm)
  {
    Build(Apply(t.shape, perm), (idx: seq<nat>) => if |idx| == |perm| then At(t, Scatter(perm, idx)) else 0)
  }

  lemma AtPermute(t: Tensor, perm: seq<nat>, idx: seq<nat>)
    requires t.Valid() && IsPerm(perm) && |perm| == |t.shape|
    requires InShape(idx, Apply(t.shape, perm))
    ensures At(Permute(t, perm), idx) == At(t, Scatter(perm, idx))
  {
    AtBuild(Apply(t.shape, perm), (idx: seq<nat>) => if |idx| == |perm| then At(t, Scatter(perm, idx)) else 0, idx);
  }

  predicate MatmulShapes(a: seq<nat>, b: seq<nat>) {
    && |a| >= 2 && |b| >= 2
    && a[|a| - 1] == b[|b| - 2]
    && (b[..|b| - 2] == a[..|a| - 2] || |b| == 2)
  }

  function MatmulTerm(a: Tensor, b: Tensor, batch: seq<nat>, m: nat, n: nat): nat -> int {
    (k: nat) => At(a, batch + [m, k]) * At(b, (if |b.shape| == 2 then [] else batch) + [k, n])
  }

  // ttir.matmul: a matrix product per batch index; a 2-D right operand serves every batch.
  function Matmul(a: Tensor, b: Tensor): (r: Tensor)
    requires a.Valid() && b.Valid() && MatmulShapes(a.shape, b.shape)
    ensures r.Valid()
  {
    var rank := |a.shape|;
    var shape := a.shape[..rank - 1] + [b.shape[|b.shape| - 1]];
    Build(shape, (idx: seq<nat>) =>
      if |idx| == rank then Sum(a.shape[rank - 1], MatmulTerm(a, b, idx[..rank - 2], idx[rank - 2], idx[rank - 1])) else 0)
  }

  lemma AtMatmul(a: Tensor, b: Tensor, batch: seq<nat>, m: nat, n: nat)
    requires a.Valid() && b.Valid() && MatmulShapes(a.shape, b.shape)
    requires InShape(batch + [m, n], a.shape[..|a.shape| - 1] + [b.shape[|b.shape| - 1]])
    ensures At(Matmul(a, b), batch + [m, n]) == Sum(a.shape[|a.shape| - 1], MatmulTerm(a, b, batch, m, n))
  {
    var rank := |a.shape|;
    var idx := batch + [m, n];
    assert idx[..rank - 2] == batch;
    AtBuild(a.shape[..rank - 1] + [b.shape[|b.shape| - 1]], (idx: seq<nat>) =>
      if |idx| == rank then Sum(a.shape[rank - 1], MatmulTerm(a, b, idx[..rank - 2], idx[rank - 2], idx[rank - 1])) else 0, idx);
  }

  lemma BatchedMatmulShape(a: Tensor, b: Tensor, bs: seq<nat>, m: nat, k: nat, n: nat)
    requires a.Valid() && b.Valid() && a.shape == bs + [m, k] && b.shape == bs + [k, n]
    ensures MatmulShapes(a.shape, b.shape) && Matmul(a, b).shape == bs + [m, n]
  {
    assert a.shape[..|bs|] == bs && b.shape[..|bs|] == bs;
    assert a.shape[..|bs| + 1] + [n] == bs + [m, n];
  }

  lemma AtBatchedMatmul(a: Tensor, b: Tensor, bs: seq<nat>, m: nat, k: nat, n: nat, batch: seq<nat>, i: nat, j: nat)
    requires a.Valid() && b.Valid() && a.shape == bs + [m, k] && b.shape == bs + [k, n]
    requires InShape(batch, bs) && i < m && j < n
    requires MatmulShapes(a.shape, b.shape)
    ensures At(Matmul(a, b), batch + [i, j]) == Sum(k, MatmulTerm(a, b, batch, i, j))
  {
    hide At, Lin, Prod, Sum, Matmul, MatmulTerm;
    assert a.shape[..|bs| + 1] + [n] == bs + [m, n];
    AtMatmul(a, b, batch, i, j);
  }

  // Flattening the last two index groups of a shape keeps the row-major position.
  lemma FlattenTwo(p: seq<nat>, i: seq<nat>, s: seq<nat>, j: seq<nat>, t: seq<nat>, k: seq<nat>)
    requires InShape(i, p) && InShape(j, s) && InShape(k, t)
    ensures InShape(i + j + k, p + s + t)
    ensures InShape(i + [Lin(s, j), Lin(t, k)], p + [Prod(s), Prod(t)])
    ensures Lin(p + s + t, i + j + k) == Lin(p + [Prod(s), Prod(t)], i + [Lin(s, j), Lin(t, k)])
    ensures Prod(p + s + t) == Prod(p + [Prod(s), Prod(t)])
  {
    hide Prod, Lin;
    PairLin(Prod(s), Prod(t), Lin(s, j), Lin(t, k));
    LinConcat(s, j, t, k);
    FlattenTwoProd(p, s, t);
    ProdConcat(s, t);
    LinConcat(p, i, s + t, j + k);
    LinConcat(p, i, [Prod(s), Prod(t)], [Lin(s, j), Lin(t, k)]);
    assert p + s + t == p + (s + t) && i + j + k == i + (j + k);
  }

  lemma PairLin(m: nat, n: nat, a: nat, b: nat)
    requires a < m && b < n
    ensures InShape([a, b], [m, n]) && Lin([m, n], [a, b]) == a * n + b
  {
    hide Prod, Lin;
    assert [m] + [n] == [m, n] && [a] + [b] == [a, b];
    LinOne(m, a);
    LinAppend([m], [a], n, b);
  }

  lemma FlattenTwoProd(p: seq<nat>, s: seq<nat>, t: seq<nat>)
    ensures Prod([Prod(s), Prod(t)]) == Prod(s) * Prod(t)
    ensures Prod(p + s + t) == Prod(p + [Prod(s), Prod(t)])
  {
    hide Prod;
    assert [Prod(s), Prod(t)] == [Prod(s)] + [Prod(t)];
    ProdOne(Prod(s));
    ProdOne(Prod(t));
    ProdConcat([Prod(s)], [Prod(t)]);
    ProdConcat(s, t);
    ProdConcat(p, s + t);
    ProdConcat(p, [Prod(s), Prod(t)]);
    assert p + s + t == p + (s + t);
  }

  // Sum of f(0), ..., f(n - 1).
  function Sum(n: nat, f: nat -> int): int {
    if n == 0 then 0 else Sum(n - 1, f) + f(n - 1)
  }

  lemma {:induction false} SumEqual(n: nat, f: nat -> int, g: nat -> int)
    requires forall k: nat :: k < n ==> f(k) == g(k)
    ensures Sum(n, f) == Sum(n, g)
  {
    if n > 0 {
      SumEqual(n - 1, f, g);
    }
  }

  function Offset(m: nat, f: nat -> int): nat -> int {
    (k: nat) => f(m + k)
  }

  lemma {:induction false} SumShift(m: nat, n: nat, f: nat -> int)
    ensures Sum(m + n, f) == Sum(m, f) + Sum(n, Offset(m, f))
  {
    if n > 0 {
      SumShift(m, n - 1, f);
    }
  }

  function Blocks(b: nat, f: nat -> int): nat -> int {
    (i: nat) => Sum(b, Offset(i * b, f))
  }

  // Splitting a sum over a * b terms into a blocks of b.
  lemma {:induction false} SumBlocks(a: nat, b: nat, f: nat -> int)
    ensures Sum(a * b, f) == Sum(a, Blocks(b, f))
  {
    if a > 0 {
      SumBlocks(a - 1, b, f);
      MulDist(a - 1, 1, b);
      SumShift((a - 1) * b, b, f);
    }
  }

  function Fixing(i: nat, f: seq<nat> -> int): seq<nat> -> int {
    (rest: seq<nat>) => f([i] + rest)
  }

  function Inner(shape: seq<nat>, f: seq<nat> -> int): nat -> int
    decreases |shape|, 1
  {
    (i: nat) => SumOver(shape, Fixing(i, f))
  }

  // Sum of f over every multi-index of a shape, one nested sum per dimension.
  function SumOver(shape: seq<nat>, f: seq<nat> -> int): int
    decreases |shape|, 0
  {
    if shape == [] then f([]) else Sum(shape[0], Inner(shape[1..], f))
  }

  function AtPosition(shape: seq<nat>, f: seq<nat> -> int): nat -> int {
    (k: nat) => if k < Prod(shape) then f(Delin(shape, k)) else 0
  }

  lemma PositionInBlock(shape: seq<nat>, f: seq<nat> -> int, i: nat, j: nat)
    requires shape != [] && i < shape[0] && j < Prod(shape[1..])
    ensures AtPosition(shape[1..], Fixing(i, f))(j) == AtPosition(shape, f)(i * Prod(shape[1..]) + j)
  {
    var p := Prod(shape[1..]);
    var k := i * p + j;
    MixedRadixBound(i, j, shape[0], p);
    DelinHead(shape, k);
    MixedRadixSplit(k, shape[0], p);
    MixedRadixUnique(i, j, k / p, k % p, p);
  }

  lemma InnerIsBlock(shape: seq<nat>, f: seq<nat> -> int, i: nat)
    requires shape != [] && i < shape[0]
    ensures Sum(Prod(shape[1..]), AtPosition(shape[1..], Fixing(i, f)))
         == Blocks(Prod(shape[1..]), AtPosition(shape, f))(i)
  {
    var p := Prod(shape[1..]);
    forall j: nat | j < p
      ensures AtPosition(shape[1..], Fixing(i, f))(j) == Offset(i * p, AtPosition(shape, f))(j)
    {
      PositionInBlock(shape, f, i, j);
    }
    SumEqual(p, AtPosition(shape[1..], Fixing(i, f)), Offset(i * p, AtPosition(shape, f)));
  }

  // The nested sum is the sum over row-major positions.
  lemma {:induction false} SumOverLinear(shape: seq<nat>, f: seq<nat> -> int)
    ensures SumOver(shape, f) == Sum(Prod(shape), AtPosition(shape, f))
    decreases |shape|
  {
    var h := AtPosition(shape, f);
    if shape == [] {
      assert Prod(shape) == 1 && Delin(shape, 0) == [];
      assert Sum(1, h) == Sum(0, h) + h(0);
    } else {
      var tail := shape[1..];
      SumBlocks(shape[0], Prod(tail), h);
      forall i: nat | i < shape[0]
        ensures Inner(tail, f)(i) == Blocks(Prod(tail), h)(i)
      {
        SumOverLinear(tail, Fixing(i, f));
        InnerIsBlock(shape, f, i);
      }
      SumEqual(shape[0], Inner(tail, f), Blocks(Prod(tail), h));
    }
  }

  // ttir.embedding: row weights[indices[i]] at every index position i; zero for a row there is not.
  function Embedding(indices: Tensor, weights: Tensor): (r: Tensor)
    requires indices.Valid() && weights.Valid() && |weights.shape| == 2
    ensures r.Valid() && r.shape == indices.shape + [weights.shape[1]]
  {
    Build(indices.shape + [weights.shape[1]], (idx: seq<nat>) => EmbeddingCell(indices, weights, idx))
  }

  function EmbeddingCell(indices: Tensor, weights: Tensor, idx: seq<nat>): int {
    if idx == [] then 0
    else
      var n := |idx| - 1;
      var row := At(indices, idx[..n]);
      if row < 0 then 0 else At(weights, [row, idx[n]])
  }

  lemma AtData(t: Tensor, idx: seq<nat>)
    requires t.Valid() && InShape(idx, t.shape)
    ensures At(t, idx) == t.data[Lin(t.shape, idx)]
  {}

  lemma EmbeddingCellIs(indices: Tensor, weights: Tensor, i: seq<nat>, m: nat)
    ensures EmbeddingCell(indices, weights, i + [m]) == if At(indices, i) < 0 then 0 else At(weights, [At(indices, i), m])
  {
    hide At;
    assert (i + [m])[..|i|] == i;
  }

  lemma EmbeddingData(indices: Tensor, weights: Tensor, q: nat, m: nat, row: int)
    requires indices.Valid() && weights.Valid() && |weights.shape| == 2
    requires q < |indices.data| && m < weights.shape[1] && indices.data[q] == row
    ensures q * weights.shape[1] + m < |Embedding(indices, weights).data|
    ensures Embedding(indices, weights).data[q * weights.shape[1] + m] == if row < 0 then 0 else At(weights, [row, m])
  {
    hide Prod, Lin, Build, At, EmbeddingCell, Delin;
    var i := Delin(indices.shape, q);
    var w := weights.shape[1];
    LinAppend(indices.shape, i, w, m);
    AtData(indices, i);
    AtBuild(indices.shape + [w], (idx: seq<nat>) => EmbeddingCell(indices, weights, idx), i + [m]);
    AtData(Embedding(indices, weights), i + [m]);
    EmbeddingCellIs(indices, weights, i, m);
  }

  // A matmul cell over a flattened contracting dimension is a sum over the multi-index.
  lemma ContractCell(a: Tensor, b: Tensor, shape: seq<nat>, f: seq<nat> -> int, batch: seq<nat>, m: nat, n: nat)
    requires |b.shape| == 2 ==> batch == []
    requires forall c :: InShape(c, shape) ==>
               At(a, batch + [m, Lin(shape, c)]) * At(b, batch + [Lin(shape, c), n]) == f(c)
    ensures Sum(Prod(shape), MatmulTerm(a, b, batch, m, n)) == SumOver(shape, f)
  {
    SumOverLinear(shape, f);
    forall k: nat | k < Prod(shape)
      ensures MatmulTerm(a, b, batch, m, n)(k) == AtPosition(shape, f)(k)
    {
      assert InShape(Delin(shape, k), shape);
    }
    SumEqual(Prod(shape), MatmulTerm(a, b, batch, m, n), AtPosition(shape, f));
  }

  // Unflattening the last two dimensions of a tensor.
  lemma UnflattenCell(flat: Tensor, t: Tensor, p: seq<nat>, s: seq<nat>, u: seq<nat>, i: seq<nat>, j: seq<nat>, k: seq<nat>)
    requires flat.Valid() && t.Valid() && flat.data == t.data
    requires flat.shape == p + [Prod(s), Prod(u)] && t.shape == p + s + u
    requires InShape(i, p) && InShape(j, s) && InShape(k, u)
    ensures InShape(i + [Lin(s, j), Lin(u, k)], flat.shape)
    ensures At(t, i + j + k) == At(flat, i + [Lin(s, j), Lin(u, k)])
  {
    FlattenTwo(p, i, s, j, u, k);
  }

  // ttir.slice with one begin, end and step per dimension.
  predicate SliceBounds(shape: seq<nat>, begins: seq<nat>, ends: seq<nat>, steps: seq<nat>) {
    && |begins| == |ends| == |steps| == |shape|
    && forall d :: 0 <= d < |shape| ==> begins[d] <= ends[d] <= shape[d] && steps[d] > 0
  }

  function SlicedShape(begins: seq<nat>, ends: seq<nat>, steps: seq<nat>): seq<nat>
    requires SliceBounds(ends, begins, ends, steps)
  {
    seq(|begins|, d requires 0 <= d < |begins| => (ends[d] - begins[d] + steps[d] - 1) / steps[d])
  }

  function SliceSource(begins: seq<nat>, steps: seq<nat>, idx: seq<nat>): seq<nat>
    requires |begins| == |steps| == |idx|
  {
    seq(|idx|, d requires 0 <= d < |idx| => begins[d] + idx[d] * steps[d])
  }

  function Slice(t: Tensor, begins: seq<nat>, ends: seq<nat>, steps: seq<nat>): (r: Tensor)
    requires t.Valid() && SliceBounds(t.shape, begins, ends, steps)
    ensures r.Valid() && r.shape == SlicedShape(begins, ends, steps)
  {
    Build(SlicedShape(begins, ends, steps), (idx: seq<nat>) =>
      if |idx| == |begins| then At(t, SliceSource(begins, steps, idx)) else 0)
  }

  lemma AtSlice(t: Tensor, begins: seq<nat>, ends: seq<nat>, steps: seq<nat>, idx: seq<nat>)
    requires t.Valid() && SliceBounds(t.shape, begins, ends, steps) && InShape(idx, SlicedShape(begins, ends, steps))
    ensures At(Slice(t, begins, ends, steps), idx) == At(t, SliceSource(begins, steps, idx))
  {
    AtBuild(SlicedShape(begins, ends, steps), (idx: seq<nat>) =>
      if |idx| == |begins| then At(t, SliceSource(begins, steps, idx)) else 0, idx);
  }

  // Tensors of one shape except on dimension `dim`, where any size is allowed.
  ghost predicate Stackable(ts: seq<Tensor>, shape: seq<nat>, dim: nat) {
    dim < |shape| && forall i :: 0 <= i < |ts| ==>
      ts[i].Valid() && |ts[i].shape| == |shape| && ts[i].shape == shape[dim := ts[i].shape[dim]]
  }

  function TotalDim(ts: seq<Tensor>, dim: nat): nat
    requires forall i :: 0 <= i < |ts| ==> dim < |ts[i].shape|
  {
    if ts == [] then 0 else TotalDim(ts[..|ts| - 1], dim) + ts[|ts| - 1].shape[dim]
  }

  function ConcatAt(ts: seq<Tensor>, dim: nat, idx: seq<nat>): int
    requires dim < |idx| && forall i :: 0 <= i < |ts| ==> dim < |ts[i].shape|
  {
    if ts == [] then 0
    else
      var front := ts[..|ts| - 1];
      var below := TotalDim(front, dim);
      if idx[dim] < below then ConcatAt(front, dim, idx)
      else At(ts[|ts| - 1], idx[dim := idx[dim] - below])
  }

  // ttir.concat along `dim`.
  function Concat(ts: seq<Tensor>, shape: seq<nat>, dim: nat): (r: Tensor)
    requires Stackable(ts, shape, dim)
    ensures r.Valid() && r.shape == shape[dim := TotalDim(ts, dim)]
  {
    Build(shape[dim := TotalDim(ts, dim)], (idx: seq<nat>) => if dim < |idx| then ConcatAt(ts, dim, idx) else 0)
  }

  lemma AtConcat(ts: seq<Tensor>, shape: seq<nat>, dim: nat, idx: seq<nat>)
    requires Stackable(ts, shape, dim) && InShape(idx, shape[dim := TotalDim(ts, dim)])
    ensures At(Concat(ts, shape, dim), idx) == ConcatAt(ts, dim, idx)
  {
    AtBuild(shape[dim := TotalDim(ts, dim)], (idx: seq<nat>) => if dim < |idx| then ConcatAt(ts, dim, idx) else 0, idx);
  }

  // The tensor `t` re-read along `dim`: position i of the result is position ps[i] of `t`.
  ghost predicate ReadsAlong(r: Tensor, t: Tensor, dim: nat, ps: seq<nat>)
    requires dim < |t.shape|
  {
    && r.Valid() && r.shape == t.shape[dim := |ps|]
    && forall idx :: InShape(idx, r.shape) ==> At(r, idx) == At(t, idx[dim := ps[idx[dim]]])
  }

  lemma ReadsShape(r: Tensor, t: Tensor, dim: nat, ps: seq<nat>)
    requires dim < |t.shape| && ReadsAlong(r, t, dim, ps)
    ensures r.Valid() && |r.shape| == |t.shape| && r.shape == t.shape[dim := |ps|] && r.shape[dim] == |ps|
  {}

  lemma ReadsFrom(r: Tensor, t: Tensor, dim: nat, ps: seq<nat>)
    requires dim < |t.shape| && r.Valid() && r.shape == t.shape[dim := |ps|]
    requires forall idx :: InShape(idx, r.shape) ==> At(r, idx) == At(t, idx[dim := ps[idx[dim]]])
    ensures ReadsAlong(r, t, dim, ps)
  {}

  // Concatenating one more piece appends the positions it reads.
  lemma ConcatReads(ts: seq<Tensor>, last: Tensor, t: Tensor, dim: nat, ps: seq<nat>, qs: seq<nat>)
    requires t.Valid() && dim < |t.shape| && Stackable(ts, t.shape, dim)
    requires ReadsAlong(Concat(ts, t.shape, dim), t, dim, ps) && ReadsAlong(last, t, dim, qs)
    ensures Stackable(ts + [last], t.shape, dim)
    ensures ReadsAlong(Concat(ts + [last], t.shape, dim), t, dim, ps + qs)
  {
    hide Lin, Prod, At, ConcatAt, TotalDim, ReadsAlong, Concat;
    var all := ts + [last];
    ReadsShape(last, t, dim, qs);
    ReadsShape(Concat(ts, t.shape, dim), t, dim, ps);
    ConcatAppend(ts, last, t.shape, dim);
    forall idx | InShape(idx, t.shape[dim := |ps| + |qs|])
      ensures At(Concat(all, t.shape, dim), idx) == At(t, idx[dim := (ps + qs)[idx[dim]]])
    {
      ConcatReadsAt(ts, last, t, dim, ps, qs, idx);
    }
    ReadsFrom(Concat(all, t.shape, dim), t, dim, ps + qs);
  }

  lemma ConcatReadsAt(ts: seq<Tensor>, last: Tensor, t: Tensor, dim: nat, ps: seq<nat>, qs: seq<nat>, idx: seq<nat>)
    requires t.Valid() && dim < |t.shape| && Stackable(ts, t.shape, dim) && Stackable(ts + [last], t.shape, dim)
    requires TotalDim(ts, dim) == |ps| && TotalDim(ts + [last], dim) == |ps| + |qs|
    requires ReadsAlong(Concat(ts, t.shape, dim), t, dim, ps) && ReadsAlong(last, t, dim, qs)
    requires InShape(idx, t.shape[dim := |ps| + |qs|])
    ensures At(Concat(ts + [last], t.shape, dim), idx) == At(t, idx[dim := (ps + qs)[idx[dim]]])
  {
    hide Lin, Prod, At, ConcatAt, TotalDim, Concat;
    AtConcat(ts + [last], t.shape, dim, idx);
    ConcatAtAppend(ts, last, t.shape, dim, idx);
    ConcatReadCell(ts, last, t, dim, ps, qs, idx);
  }

  lemma ConcatAppend(ts: seq<Tensor>, last: Tensor, shape: seq<nat>, dim: nat)
    requires dim < |shape| && Stackable(ts, shape, dim) && last.Valid() && |last.shape| == |shape|
    requires last.shape == shape[dim := last.shape[dim]]
    ensures Stackable(ts + [last], shape, dim)
    ensures TotalDim(ts + [last], dim) == TotalDim(ts, dim) + last.shape[dim]
  {
    assert (ts + [last])[..|ts|] == ts;
  }

  lemma ConcatAtAppend(ts: seq<Tensor>, last: Tensor, shape: seq<nat>, dim: nat, idx: seq<nat>)
    requires Stackable(ts + [last], shape, dim) && dim < |idx|
    requires forall i :: 0 <= i < |ts| ==> dim < |ts[i].shape|
    ensures ConcatAt(ts + [last], dim, idx)
         == if idx[dim] < TotalDim(ts, dim) then ConcatAt(ts, dim, idx) else At(last, idx[dim := idx[dim] - TotalDim(ts, dim)])
  {
    hide At, Lin, Prod, TotalDim, Stackable;
    assert (ts + [last])[..|ts|] == ts;
  }

  lemma ConcatReadCell(ts: seq<Tensor>, last: Tensor, t: Tensor, dim: nat, ps: seq<nat>, qs: seq<nat>, idx: seq<nat>)
    requires t.Valid() && dim < |t.shape| && Stackable(ts, t.shape, dim) && TotalDim(ts, dim) == |ps|
    requires ReadsAlong(Concat(ts, t.shape, dim), t, dim, ps) && ReadsAlong(last, t, dim, qs)
    requires InShape(idx, t.shape[dim := |ps| + |qs|])
    ensures (if idx[dim] < |ps| then ConcatAt(ts, dim, idx) else At(last, idx[dim := idx[dim] - |ps|]))
         == At(t, idx[dim := (ps + qs)[idx[dim]]])
  {
    hide Lin, Prod, At, TotalDim, ConcatAt, Concat;
    if idx[dim] < |ps| {
      assert InShape(idx, t.shape[dim := |ps|]);
      AtConcat(ts, t.shape, dim, idx);
    } else {
      var j := idx[dim := idx[dim] - |ps|];
      assert InShape(j, t.shape[dim := |qs|]);
      assert j[dim := qs[j[dim]]] == idx[dim := (ps + qs)[idx[dim]]];
    }
  }

  // Reading every position in order is the identity.
  lemma ReadsAllIsIdentity(r: Tensor, t: Tensor, dim: nat, ps: seq<nat>)
    requires t.Valid() && dim < |t.shape| && ReadsAlong(r, t, dim, ps)
    requires |ps| == t.shape[dim] && forall i :: 0 <= i < |ps| ==> ps[i] == i
    ensures r == t
  {
    assert t.shape[dim := |ps|] == t.shape;
    forall idx | InShape(idx, t.shape)
      ensures At(r, idx) == At(t, idx)
    {
      assert idx[dim := ps[idx[dim]]] == idx;
    }
    TensorExtensionality(r, t);
  }

  lemma UnitStepShape(begins: seq<nat>, ends: seq<nat>, steps: seq<nat>)
    requires SliceBounds(ends, begins, ends, steps)
    requires forall d :: 0 <= d < |begins| ==> steps[d] == 1
    ensures forall d :: 0 <= d < |begins| ==> SlicedShape(begins, ends, steps)[d] == ends[d] - begins[d]
  {}

  lemma UnitStepSource(begins: seq<nat>, steps: seq<nat>, dim: nat, idx: seq<nat>)
    requires |begins| == |steps| == |idx| && dim < |idx|
    requires forall d :: 0 <= d < |idx| ==> steps[d] == 1 && (d != dim ==> begins[d] == 0)
    ensures SliceSource(begins, steps, idx) == idx[dim := begins[dim] + idx[dim]]
  {}

  // Slicing one dimension with step 1 reads an interval of it.
  lemma SliceReads(t: Tensor, dim: nat, begins: seq<nat>, ends: seq<nat>, steps: seq<nat>)
    requires t.Valid() && dim < |t.shape| && SliceBounds(t.shape, begins, ends, steps)
    requires forall d :: 0 <= d < |t.shape| ==> steps[d] == 1
    requires forall d :: 0 <= d < |t.shape| && d != dim ==> begins[d] == 0 && ends[d] == t.shape[d]
    ensures ReadsAlong(Slice(t, begins, ends, steps), t, dim, Interval(begins[dim], ends[dim]))
  {
    hide SliceSource, At, Lin, Prod;
    var r := Slice(t, begins, ends, steps);
    UnitStepShape(begins, ends, steps);
    assert r.shape == t.shape[dim := ends[dim] - begins[dim]];
    hide *;
    forall idx | InShape(idx, r.shape)
      ensures At(r, idx) == At(t, idx[dim := Interval(begins[dim], ends[dim])[idx[dim]]])
    {
      AtSlice(t, begins, ends, steps, idx);
      UnitStepSource(begins, steps, dim, idx);
    }
  }

  ghost predicate Groups(t: Tensor, batch: seq<nat>, first: seq<nat>, second: seq<nat>) {
    && t.Valid()
    && IsPerm(batch + first + second) && |batch + first + second| == |t.shape|
    && InRange(batch, |t.shape|) && InRange(first, |t.shape|) && InRange(second, |t.shape|)
  }

  // Permute to (batch, first, second), then flatten the last two groups.
  function Flattened(t: Tensor, batch: seq<nat>, first: seq<nat>, second: seq<nat>): (r: Tensor)
    requires Groups(t, batch, first, second)
    ensures r.Valid()
    ensures r.shape == Apply(t.shape, batch) + [Prod(Apply(t.shape, first)), Prod(Apply(t.shape, second))]
  {
    var p, s, u := Apply(t.shape, batch), Apply(t.shape, first), Apply(t.shape, second);
    assert Apply(t.shape, batch + first + second) == p + s + u;
    FlattenTwoProd(p, s, u);
    Reshape(Permute(t, batch + first + second), p + [Prod(s), Prod(u)])
  }

  // Cell (b, i, k) of the flattened operand is the operand's element at the unflattened index.
  lemma FlattenedCell(t: Tensor, batch: seq<nat>, first: seq<nat>, second: seq<nat>, b: seq<nat>, i: seq<nat>, k: seq<nat>)
    requires Groups(t, batch, first, second)
    requires InShape(b, Apply(t.shape, batch)) && InShape(i, Apply(t.shape, first)) && InShape(k, Apply(t.shape, second))
    ensures |b + i + k| == |batch + first + second|
    ensures At(Flattened(t, batch, first, second), b + [Lin(Apply(t.shape, first), i), Lin(Apply(t.shape, second), k)])
         == At(t, Scatter(batch + first + second, b + i + k))
  {
    var p, s, u := Apply(t.shape, batch), Apply(t.shape, first), Apply(t.shape, second);
    var perm := batch + first + second;
    assert Apply(t.shape, perm) == p + s + u;
    FlattenTwo(p, b, s, i, u, k);
    AtReshape(Permute(t, perm), p + [Prod(s), Prod(u)], b + [Lin(s, i), Lin(u, k)], b + i + k);
    AtPermute(t, perm, b + i + k);
  }

  lemma FlattenedWithoutBatch(t: Tensor, first: seq<nat>, second: seq<nat>)
    requires Groups(t, [], first, second)
    ensures IsPerm(first + second) && |first + second| == |t.shape|
    ensures Prod([Prod(Apply(t.shape, first)), Prod(Apply(t.shape, second))]) == Prod(Apply(t.shape, first + second))
    ensures Flattened(t, [], first, second)
         == Tensor([Prod(Apply(t.shape, first)), Prod(Apply(t.shape, second))], Permute(t, first + second).data)
  {
    assert [] + first + second == first + second;
    hide Permute, Prod;
    var u := [Prod(Apply(t.shape, first)), Prod(Apply(t.shape, second))];
    assert Apply(t.shape, []) + u == u;
    var flat := Flattened(t, [], first, second);
    assert flat.Valid();
  }

  // Undoing a permutation of dimensions: the element at `idx` is read at the permuted index.
  lemma AtUnpermuted(r: Tensor, perm: seq<nat>, shape: seq<nat>, idx: seq<nat>)
    requires r.Valid() && IsPerm(perm) && |perm| == |shape| && r.shape == Apply(shape, perm) && InShape(idx, shape)
    ensures Permute(r, Inverse(perm)).shape == shape
    ensures InShape(Apply(idx, perm), r.shape)
    ensures At(Permute(r, Inverse(perm)), idx) == At(r, Apply(idx, perm))
  {
    ApplyInverse(shape, perm);
    hide At, Permute, Lin, Prod;
    AtPermute(r, Inverse(perm), idx);
    InverseTwice(perm);
  }
}
