/**
 * `FullToShardShape` and `ShardToFullShape` of `tools/ttnn-standalone/workarounds.hpp`: spreading a
 * tensor over a two-dimensional mesh of devices and gathering it again. What the mapper and the
 * composer they call do is assumed: even chunks along one dimension per mesh axis, rows first, and
 * concatenation in the opposite order; devices are numbered row by row.
 */
module ShardTensors {
  import opened Shapes
  import opened Permutations
  import opened Tensors
  import opened Wrappers
  import M = MeshSharding

  /* Even chunks along one dimension */

  // The number of positions in n chunks of size k.
  function Times(n: nat, k: nat): nat {
    if n == 0 then 0 else Times(n - 1, k) + k
  }

  lemma {:induction false} TimesIs(n: nat, k: nat)
    ensures Times(n, k) == n * k
  {
    if n > 0 {
      TimesIs(n - 1, k);
      MulDist(n - 1, 1, k);
    }
  }

  lemma {:induction false} TimesGrows(m: nat, n: nat, k: nat)
    requires m <= n
    ensures Times(m, k) <= Times(n, k)
  {
    if m < n {
      TimesGrows(m, n - 1, k);
    }
  }

  function Zeros(n: nat): (r: seq<nat>)
    ensures |r| == n && forall d :: 0 <= d < n ==> r[d] == 0
  {
    seq(n, (d: nat) requires d < n => 0)
  }

  function Ones(n: nat): (r: seq<nat>)
    ensures |r| == n && forall d :: 0 <= d < n ==> r[d] == 1
  {
    seq(n, (d: nat) requires d < n => 1)
  }

  // The chunk of size k from position `at`.
  function Piece(t: Tensor, dim: nat, at: nat, k: nat): (r: Tensor)
    requires t.Valid() && dim < |t.shape| && at + k <= t.shape[dim]
    ensures r.Valid()
  {
    hide Prod;
    Slice(t, Zeros(|t.shape|)[dim := at], t.shape[dim := at + k], Ones(|t.shape|))
  }

  lemma PieceReads(t: Tensor, dim: nat, at: nat, k: nat)
    requires t.Valid() && dim < |t.shape| && at + k <= t.shape[dim]
    ensures ReadsAlong(Piece(t, dim, at, k), t, dim, Interval(at, at + k))
    ensures Piece(t, dim, at, k).shape == t.shape[dim := k]
  {
    hide Prod, At, Lin, Zeros, Ones, ReadsAlong, Slice;
    SliceReads(t, dim, Zeros(|t.shape|)[dim := at], t.shape[dim := at + k], Ones(|t.shape|));
    ReadsShape(Piece(t, dim, at, k), t, dim, Interval(at, at + k));
  }

  // The first n chunks of size k.
  function Pieces(t: Tensor, dim: nat, k: nat, n: nat): seq<Tensor>
    requires t.Valid() && dim < |t.shape| && Times(n, k) <= t.shape[dim]
  {
    if n == 0 then [] else Pieces(t, dim, k, n - 1) + [Piece(t, dim, Times(n - 1, k), k)]
  }

  lemma {:induction false} PiecesLength(t: Tensor, dim: nat, k: nat, n: nat)
    requires t.Valid() && dim < |t.shape| && Times(n, k) <= t.shape[dim]
    ensures |Pieces(t, dim, k, n)| == n
  {
    hide Piece;
    if n > 0 {
      PiecesLength(t, dim, k, n - 1);
    }
  }

  lemma {:induction false} PieceAt(t: Tensor, dim: nat, k: nat, n: nat, i: nat)
    requires t.Valid() && dim < |t.shape| && Times(n, k) <= t.shape[dim] && i < n
    ensures |Pieces(t, dim, k, n)| == n && Times(i, k) + k <= t.shape[dim]
    ensures Pieces(t, dim, k, n)[i] == Piece(t, dim, Times(i, k), k)
  {
    hide Piece;
    TimesGrows(i + 1, n, k);
    PiecesLength(t, dim, k, n - 1);
    if i < n - 1 {
      PieceAt(t, dim, k, n - 1, i);
    }
  }

  // The first n chunks, joined, are the positions they cover.
  lemma {:induction false} PiecesRead(t: Tensor, dim: nat, k: nat, n: nat)
    requires t.Valid() && dim < |t.shape| && Times(n, k) <= t.shape[dim]
    ensures Stackable(Pieces(t, dim, k, n), t.shape, dim)
    ensures ReadsAlong(Concat(Pieces(t, dim, k, n), t.shape, dim), t, dim, Interval(0, Times(n, k)))
  {
    hide Piece, At, Lin, Prod, ReadsAlong, Concat;
    if n == 0 {
      NothingReads(t, dim);
    } else {
      PiecesRead(t, dim, k, n - 1);
      var at := Times(n - 1, k);
      PieceReads(t, dim, at, k);
      ConcatReads(Pieces(t, dim, k, n - 1), Piece(t, dim, at, k), t, dim, Interval(0, at), Interval(at, at + k));
      assert Interval(0, at) + Interval(at, at + k) == Interval(0, at + k);
    }
  }

  lemma NothingReads(t: Tensor, dim: nat)
    requires t.Valid() && dim < |t.shape|
    ensures Stackable([], t.shape, dim) && ReadsAlong(Concat([], t.shape, dim), t, dim, Interval(0, 0))
  {
    hide At, Lin, Prod;
  }

  // All the chunks, joined, are the tensor.
  lemma PiecesJoin(t: Tensor, dim: nat, k: nat, n: nat)
    requires t.Valid() && dim < |t.shape| && Times(n, k) == t.shape[dim]
    ensures Stackable(Pieces(t, dim, k, n), t.shape, dim)
    ensures Concat(Pieces(t, dim, k, n), t.shape, dim) == t
  {
    hide At, Lin, Prod, Concat, Pieces, Stackable, Times, ReadsAlong;
    PiecesRead(t, dim, k, n);
    ReadsAllIsIdentity(Concat(Pieces(t, dim, k, n), t.shape, dim), t, dim, Interval(0, Times(n, k)));
  }

  /* The mesh */

  // `Shard2dConfig`: the tensor dimension each mesh axis splits, if any.
  datatype Config = Config(rowDim: Option<nat>, colDim: Option<nat>)

  predicate Splits(shape: seq<nat>, dim: Option<nat>, n: nat) {
    n > 0 && (dim.Some? ==> dim.value < |shape| && shape[dim.value] % n == 0)
  }

  ghost predicate Shardable(t: Tensor, c: Config, rows: nat, cols: nat) {
    && t.Valid() && Splits(t.shape, c.rowDim, rows) && Splits(t.shape, c.colDim, cols)
    && (c.rowDim.Some? && c.colDim.Some? ==> c.rowDim != c.colDim)
  }

  lemma EvenChunks(size: nat, n: nat)
    requires n > 0 && size % n == 0
    ensures Times(n, Quot(size, n)) == size
  {
    TimesIs(n, Quot(size, n));
  }

  // The i-th of n even chunks, or the tensor itself.
  function Part(t: Tensor, dim: Option<nat>, n: nat, i: nat): (r: Tensor)
    requires t.Valid() && Splits(t.shape, dim, n) && i < n
    ensures r.Valid()
  {
    hide Prod, Quot;
    if dim.None? then t else
      EvenChunks(t.shape[dim.value], n);
      TimesGrows(i + 1, n, Quot(t.shape[dim.value], n));
      Piece(t, dim.value, Times(i, Quot(t.shape[dim.value], n)), Quot(t.shape[dim.value], n))
  }

  lemma PartShape(t: Tensor, dim: Option<nat>, n: nat, i: nat, d: nat)
    requires t.Valid() && Splits(t.shape, dim, n) && i < n && d < |t.shape| && dim != Some(d)
    ensures |Part(t, dim, n, i).shape| == |t.shape| && Part(t, dim, n, i).shape[d] == t.shape[d]
  {
    hide Prod, Quot, Piece;
    if dim.Some? {
      var k := Quot(t.shape[dim.value], n);
      EvenChunks(t.shape[dim.value], n);
      TimesGrows(i + 1, n, k);
      PieceReads(t, dim.value, Times(i, k), k);
    }
  }

  // All the parts, in order.
  function Parts(t: Tensor, dim: Option<nat>, n: nat): seq<Tensor>
    requires t.Valid() && Splits(t.shape, dim, n)
  {
    hide Prod, Quot;
    if dim.None? then seq(n, (i: nat) requires i < n => t) else
      EvenChunks(t.shape[dim.value], n);
      Pieces(t, dim.value, Quot(t.shape[dim.value], n), n)
  }

  lemma PartsAre(t: Tensor, dim: Option<nat>, n: nat, i: nat)
    requires t.Valid() && Splits(t.shape, dim, n) && i < n
    ensures |Parts(t, dim, n)| == n && Parts(t, dim, n)[i] == Part(t, dim, n, i)
  {
    hide Prod, Quot, Piece, Pieces;
    if dim.Some? {
      EvenChunks(t.shape[dim.value], n);
      PieceAt(t, dim.value, Quot(t.shape[dim.value], n), n, i);
    }
  }

  // The tensors of the devices of one mesh row.
  function Row(t: Tensor, c: Config, rows: nat, cols: nat, r: nat): seq<Tensor>
    requires Shardable(t, c, rows, cols) && r < rows
  {
    RowSplits(t, c, rows, cols, r);
    Parts(Part(t, c.rowDim, rows, r), c.colDim, cols)
  }

  lemma RowSplits(t: Tensor, c: Config, rows: nat, cols: nat, r: nat)
    requires Shardable(t, c, rows, cols) && r < rows
    ensures Splits(Part(t, c.rowDim, rows, r).shape, c.colDim, cols)
  {
    hide Part;
    if c.colDim.Some? {
      PartShape(t, c.rowDim, rows, r, c.colDim.value);
    }
  }

  // `shard_tensor_to_2d_mesh_mapper`: the tensors of the devices of the first n mesh rows.
  function Sharded(t: Tensor, c: Config, rows: nat, cols: nat, n: nat): seq<Tensor>
    requires Shardable(t, c, rows, cols) && n <= rows
  {
    if n == 0 then [] else Sharded(t, c, rows, cols, n - 1) + Row(t, c, rows, cols, n - 1)
  }

  lemma RowLength(t: Tensor, c: Config, rows: nat, cols: nat, r: nat)
    requires Shardable(t, c, rows, cols) && r < rows
    ensures |Row(t, c, rows, cols, r)| == cols
  {
    hide Parts, Part;
    RowSplits(t, c, rows, cols, r);
    PartsAre(Part(t, c.rowDim, rows, r), c.colDim, cols, 0);
  }

  lemma {:induction false} ShardedRow(t: Tensor, c: Config, rows: nat, cols: nat, n: nat, r: nat)
    requires Shardable(t, c, rows, cols) && r < n <= rows
    ensures |Sharded(t, c, rows, cols, n)| == Times(n, cols) && Times(r, cols) + cols <= Times(n, cols)
    ensures Sharded(t, c, rows, cols, n)[Times(r, cols)..Times(r, cols) + cols] == Row(t, c, rows, cols, r)
  {
    hide Row, Shardable, Times, Sharded;
    ShardedLength(t, c, rows, cols, n);
    ShardedLength(t, c, rows, cols, n - 1);
    RowLength(t, c, rows, cols, n - 1);
    TimesNext(r, cols);
    TimesGrows(r + 1, n, cols);
    ShardedNext(t, c, rows, cols, n);
    var before, row := Sharded(t, c, rows, cols, n - 1), Row(t, c, rows, cols, n - 1);
    var at := Times(r, cols);
    if r < n - 1 {
      ShardedRow(t, c, rows, cols, n - 1, r);
      assert (before + row)[at..at + cols] == before[at..at + cols];
    } else {
      assert (before + row)[at..at + cols] == row;
    }
  }

  lemma TimesNext(n: nat, k: nat)
    ensures Times(n + 1, k) == Times(n, k) + k
  {}

  lemma ShardedNext(t: Tensor, c: Config, rows: nat, cols: nat, n: nat)
    requires Shardable(t, c, rows, cols) && 0 < n <= rows
    ensures Sharded(t, c, rows, cols, n) == Sharded(t, c, rows, cols, n - 1) + Row(t, c, rows, cols, n - 1)
  {
    hide Row, Shardable;
  }

  lemma {:induction false} ShardedLength(t: Tensor, c: Config, rows: nat, cols: nat, n: nat)
    requires Shardable(t, c, rows, cols) && n <= rows
    ensures |Sharded(t, c, rows, cols, n)| == Times(n, cols)
  {
    hide Row, Shardable;
    if n > 0 {
      ShardedLength(t, c, rows, cols, n - 1);
      RowLength(t, c, rows, cols, n - 1);
    }
  }

  // One device's tensor.
  lemma ShardedAt(t: Tensor, c: Config, rows: nat, cols: nat, r: nat, i: nat)
    requires Shardable(t, c, rows, cols) && r < rows && i < cols
    ensures Times(r, cols) + i < |Sharded(t, c, rows, cols, rows)| && i < |Row(t, c, rows, cols, r)|
    ensures Sharded(t, c, rows, cols, rows)[Times(r, cols) + i] == Row(t, c, rows, cols, r)[i]
  {
    hide Row, Shardable, Sharded;
    ShardedRow(t, c, rows, cols, rows, r);
    var all := Sharded(t, c, rows, cols, rows);
    assert all[Times(r, cols)..Times(r, cols) + cols][i] == all[Times(r, cols) + i];
  }

  // Joining all the parts of a split gives the tensor back.
  lemma PartsJoin(t: Tensor, d: nat, n: nat)
    requires t.Valid() && Splits(t.shape, Some(d), n)
    ensures Stackable(Parts(t, Some(d), n), t.shape, d) && Concat(Parts(t, Some(d), n), t.shape, d) == t
  {
    hide Prod, Quot, Pieces, Concat, Stackable;
    EvenChunks(t.shape[d], n);
    PiecesJoin(t, d, Quot(t.shape[d], n), n);
  }

  // Joining needs the common shape only off the joined dimension.
  lemma JoinShape(ts: seq<Tensor>, shape: seq<nat>, d: nat)
    requires Stackable(ts, shape, d) && ts != []
    ensures Stackable(ts, ts[0].shape, d) && Concat(ts, ts[0].shape, d) == Concat(ts, shape, d)
  {
    hide Prod, TotalDim, ConcatAt;
    assert ts[0].shape[d := TotalDim(ts, d)] == shape[d := TotalDim(ts, d)];
  }

  /* The two functions */

  function AsDim(d: int): Option<nat> {
    if d >= 0 then Some(d) else None
  }

  function ConfigOf(shardDims: seq<int>): Config
    requires |shardDims| == 2
  {
    Config(AsDim(shardDims[0]), AsDim(shardDims[1]))
  }

  // What sharding produces.
  ghost predicate IsSharded(t: Tensor, rows: nat, cols: nat, shardType: M.ShardType, shardDims: seq<int>, shards: seq<Tensor>) {
    if shardType == M.Replicate then |shards| == rows * cols && forall i :: 0 <= i < |shards| ==> shards[i] == t
    else |shardDims| == 2 && Shardable(t, ConfigOf(shardDims), rows, cols) && shards == Sharded(t, ConfigOf(shardDims), rows, cols, rows)
  }

  // The sharding is consistent, and fits the tensor.
  ghost predicate Agrees(t: Tensor, rows: nat, cols: nat, shardType: M.ShardType, shardShape: seq<int>, shardDims: seq<int>) {
    shardType == M.Replicate ||
    (&& |shardDims| == 2 && M.Consistent(shardShape, shardDims, [rows, cols])
     && Shardable(t, ConfigOf(shardDims), rows, cols))
  }

  /* What each device holds, element by element */

  // The position, in the tensor, of an element of its i-th part.
  function PartIndex(idx: seq<nat>, dim: Option<nat>, size: nat, i: nat): seq<nat>
    requires dim.Some? ==> dim.value < |idx|
  {
    if dim.None? then idx else idx[dim.value := i * size + idx[dim.value]]
  }

  lemma PartCells(t: Tensor, dim: Option<nat>, n: nat, i: nat, idx: seq<nat>)
    requires t.Valid() && Splits(t.shape, dim, n) && i < n && InShape(idx, Part(t, dim, n, i).shape)
    ensures |idx| == |t.shape|
    ensures var size := if dim.Some? then t.shape[dim.value] / n else 0;
      InShape(PartIndex(idx, dim, size, i), t.shape) && At(Part(t, dim, n, i), idx) == At(t, PartIndex(idx, dim, size, i))
  {
    hide Prod, At, Lin, Piece;
    if dim.Some? {
      var d := dim.value;
      var k := Quot(t.shape[d], n);
      EvenChunks(t.shape[d], n);
      TimesGrows(i + 1, n, k);
      PieceReads(t, d, Times(i, k), k);
      TimesIs(i, k);
    }
  }

  lemma PartShapeIs(t: Tensor, dim: Option<nat>, n: nat, i: nat)
    requires t.Valid() && Splits(t.shape, dim, n) && i < n
    ensures Part(t, dim, n, i).shape == if dim.Some? then t.shape[dim.value := t.shape[dim.value] / n] else t.shape
  {
    hide Prod, Quot, Piece;
    if dim.Some? {
      var k := Quot(t.shape[dim.value], n);
      EvenChunks(t.shape[dim.value], n);
      TimesGrows(i + 1, n, k);
      PieceReads(t, dim.value, Times(i, k), k);
      QuotIs(t.shape[dim.value], n);
    }
  }

  lemma QuotIs(a: nat, n: nat)
    requires n > 0
    ensures Quot(a, n) == a / n
  {}

  // Where the element of a device's tensor is in the whole one: the device's mesh row goes along the
  // first shard dimension and its mesh column along the second.
  function Whence(idx: seq<nat>, shape: seq<nat>, shardDims: seq<int>, r: nat, c: nat): seq<nat>
    requires |idx| == |shape| && |shardDims| == 2
  {
    seq(|idx|, (d: nat) requires d < |idx| =>
      idx[d] + if d == shardDims[0] then r * shape[d] else if d == shardDims[1] then c * shape[d] else 0)
  }

  // The device in row r and column c, devices numbered row by row, holds its part of its row's part.
  lemma DeviceTensor(t: Tensor, shardDims: seq<int>, rows: nat, cols: nat, r: nat, c: nat) returns (shard: Tensor)
    requires |shardDims| == 2 && Shardable(t, ConfigOf(shardDims), rows, cols) && r < rows && c < cols
    ensures IsDevice(shard, t, shardDims, rows, cols, r, c)
    ensures |Sharded(t, ConfigOf(shardDims), rows, cols, rows)| == Times(rows, cols)
    ensures Times(r, cols) + c < Times(rows, cols)
    ensures shard == Sharded(t, ConfigOf(shardDims), rows, cols, rows)[Times(r, cols) + c]
  {
    hide Prod, Part, Row, Sharded, Times;
    var config := ConfigOf(shardDims);
    ShardedAt(t, config, rows, cols, r, c);
    ShardedLength(t, config, rows, cols, rows);
    RowPart(t, config, rows, cols, r, c);
    shard := Part(Part(t, config.rowDim, rows, r), config.colDim, cols, c);
  }

  ghost predicate IsDevice(shard: Tensor, t: Tensor, shardDims: seq<int>, rows: nat, cols: nat, r: nat, c: nat) {
    && |shardDims| == 2 && Shardable(t, ConfigOf(shardDims), rows, cols) && r < rows && c < cols
    && var config := ConfigOf(shardDims);
    && Splits(Part(t, config.rowDim, rows, r).shape, config.colDim, cols)
    && shard == Part(Part(t, config.rowDim, rows, r), config.colDim, cols, c)
  }

  lemma DeviceShape(t: Tensor, shardDims: seq<int>, rows: nat, cols: nat, r: nat, c: nat, shard: Tensor)
    requires IsDevice(shard, t, shardDims, rows, cols, r, c)
    ensures |shard.shape| == |t.shape|
    ensures forall d :: 0 <= d < |t.shape| ==>
      shard.shape[d] == if d == shardDims[0] then t.shape[d] / rows else if d == shardDims[1] then t.shape[d] / cols else t.shape[d]
  {
    hide Prod, Part;
    var config := ConfigOf(shardDims);
    var strip := Part(t, config.rowDim, rows, r);
    PartShapeIs(t, config.rowDim, rows, r);
    PartShapeIs(strip, config.colDim, cols, c);
  }

  lemma DeviceCell(t: Tensor, shardDims: seq<int>, rows: nat, cols: nat, r: nat, c: nat, shard: Tensor, idx: seq<nat>)
    requires IsDevice(shard, t, shardDims, rows, cols, r, c) && InShape(idx, shard.shape)
    ensures |idx| == |shard.shape| && At(shard, idx) == At(t, Whence(idx, shard.shape, shardDims, r, c))
  {
    hide Prod, At, Lin, Part, Whence, PartIndex;
    var config := ConfigOf(shardDims);
    var strip := Part(t, config.rowDim, rows, r);
    PartShapeIs(t, config.rowDim, rows, r);
    PartShapeIs(strip, config.colDim, cols, c);
    PartCells(strip, config.colDim, cols, c, idx);
    var size := if config.colDim.Some? then strip.shape[config.colDim.value] / cols else 0;
    PartCells(t, config.rowDim, rows, r, PartIndex(idx, config.colDim, size, c));
    BothShifts(idx, shard.shape, shardDims, r, c);
  }

  lemma BothShifts(idx: seq<nat>, shape: seq<nat>, shardDims: seq<int>, r: nat, c: nat)
    requires |idx| == |shape| && |shardDims| == 2 && shardDims[0] < |idx| && shardDims[1] < |idx|
    requires shardDims[0] >= 0 ==> shardDims[0] != shardDims[1]
    ensures var config := ConfigOf(shardDims);
      var high := PartIndex(idx, config.colDim, if config.colDim.Some? then shape[config.colDim.value] else 0, c);
      |high| == |idx| && PartIndex(high, config.rowDim, if config.rowDim.Some? then shape[config.rowDim.value] else 0, r)
        == Whence(idx, shape, shardDims, r, c)
  {}

  lemma DeviceCells(t: Tensor, shardDims: seq<int>, rows: nat, cols: nat, r: nat, c: nat, shard: Tensor)
    requires IsDevice(shard, t, shardDims, rows, cols, r, c)
    ensures |shard.shape| == |t.shape| && |shardDims| == 2 && rows > 0 && cols > 0
    ensures forall d :: 0 <= d < |t.shape| ==>
      shard.shape[d] == if d == shardDims[0] then t.shape[d] / rows else if d == shardDims[1] then t.shape[d] / cols else t.shape[d]
    ensures forall idx :: InShape(idx, shard.shape) ==>
      |idx| == |shard.shape| && At(shard, idx) == At(t, Whence(idx, shard.shape, shardDims, r, c))
  {
    hide Prod, At, Lin, Part, Shardable, ConfigOf, Whence, Splits;
    DeviceShape(t, shardDims, rows, cols, r, c, shard);
    hide IsDevice;
    forall idx | InShape(idx, shard.shape)
      ensures |idx| == |shard.shape| && At(shard, idx) == At(t, Whence(idx, shard.shape, shardDims, r, c))
    {
      DeviceCell(t, shardDims, rows, cols, r, c, shard, idx);
    }
  }

  // `FullToShardShape`, for replicated and device shardings.
  method FullToShardShape(input: Tensor, rows: nat, cols: nat, shardType: M.ShardType, shardDims: seq<int>) returns (shards: seq<Tensor>)
    requires shardType != M.Replicate ==> |shardDims| == 2 && Shardable(input, ConfigOf(shardDims), rows, cols)
    ensures IsSharded(input, rows, cols, shardType, shardDims, shards)
  {
    if shardType == M.Replicate {
      return seq(rows * cols, (i: nat) requires i < rows * cols => input);
    }
    var config := Config(None, None);
    if shardDims[0] >= 0 {
      config := config.(rowDim := Some(shardDims[0]));
    }
    if shardDims[1] >= 0 {
      config := config.(colDim := Some(shardDims[1]));
    }
    assert config == ConfigOf(shardDims);
    shards := Sharded(input, config, rows, cols, rows);
  }

  // `concat_2d_mesh_to_tensor_composer`: joins each mesh row, then the rows.
  method ComposeRows(shards: seq<Tensor>, rows: nat, cols: nat, rowDim: nat, colDim: nat, ghost t: Tensor) returns (full: Tensor)
    requires Shardable(t, Config(Some(rowDim), Some(colDim)), rows, cols)
    requires shards == Sharded(t, Config(Some(rowDim), Some(colDim)), rows, cols, rows)
    ensures full == t
  {
    hide Shardable, Sharded, Row, Part, Parts, Stackable, Concat, Times;
    ghost var c := Config(Some(rowDim), Some(colDim));
    var joined: seq<Tensor> := [];
    ShardableFacts(t, c, rows, cols);
    for r := 0 to rows
      invariant |joined| == r && forall i :: 0 <= i < r ==> joined[i] == Part(t, Some(rowDim), rows, i)
    {
      ShardedRow(t, c, rows, cols, rows, r);
      var row := shards[Times(r, cols)..Times(r, cols) + cols];
      RowJoins(t, c, rows, cols, r);
      joined := joined + [Concat(row, row[0].shape, colDim)];
    }
    RowsJoin(t, rowDim, rows, joined);
    full := Concat(joined, joined[0].shape, rowDim);
  }

  lemma ShardableFacts(t: Tensor, c: Config, rows: nat, cols: nat)
    requires Shardable(t, c, rows, cols)
    ensures t.Valid() && Splits(t.shape, c.rowDim, rows) && Splits(t.shape, c.colDim, cols) && rows > 0 && cols > 0
  {}

  lemma RowJoins(t: Tensor, c: Config, rows: nat, cols: nat, r: nat)
    requires Shardable(t, c, rows, cols) && r < rows && c.colDim.Some?
    ensures var row := Row(t, c, rows, cols, r);
      && row != [] && Stackable(row, row[0].shape, c.colDim.value)
      && Concat(row, row[0].shape, c.colDim.value) == Part(t, c.rowDim, rows, r)
  {
    hide Part, Parts, Stackable, Concat;
    RowSplits(t, c, rows, cols, r);
    RowLength(t, c, rows, cols, r);
    var part := Part(t, c.rowDim, rows, r);
    PartsJoin(part, c.colDim.value, cols);
    JoinShape(Row(t, c, rows, cols, r), part.shape, c.colDim.value);
  }

  lemma RowsJoin(t: Tensor, rowDim: nat, rows: nat, joined: seq<Tensor>)
    requires t.Valid() && Splits(t.shape, Some(rowDim), rows)
    requires |joined| == rows && forall i :: 0 <= i < rows ==> joined[i] == Part(t, Some(rowDim), rows, i)
    ensures joined != [] && Stackable(joined, joined[0].shape, rowDim) && Concat(joined, joined[0].shape, rowDim) == t
  {
    hide Part, Parts, Stackable, Concat;
    forall i | 0 <= i < rows
      ensures |Parts(t, Some(rowDim), rows)| == rows && joined[i] == Parts(t, Some(rowDim), rows)[i]
    {
      PartsAre(t, Some(rowDim), rows, i);
    }
    PartsAre(t, Some(rowDim), rows, 0);
    assert joined == Parts(t, Some(rowDim), rows);
    PartsJoin(t, rowDim, rows);
    JoinShape(joined, t.shape, rowDim);
  }

  lemma PartNone(t: Tensor, n: nat, i: nat)
    requires t.Valid() && i < n
    ensures Part(t, None, n, i) == t
  {}

  lemma RowPart(t: Tensor, c: Config, rows: nat, cols: nat, r: nat, i: nat)
    requires Shardable(t, c, rows, cols) && r < rows && i < cols
    ensures |Row(t, c, rows, cols, r)| == cols && Splits(Part(t, c.rowDim, rows, r).shape, c.colDim, cols)
    ensures Row(t, c, rows, cols, r)[i] == Part(Part(t, c.rowDim, rows, r), c.colDim, cols, i)
  {
    hide Part, Parts;
    RowSplits(t, c, rows, cols, r);
    PartsAre(Part(t, c.rowDim, rows, r), c.colDim, cols, i);
  }

  // Every `stride`-th device holds the next part of a tensor split along one mesh axis only.
  lemma StridedPart(t: Tensor, c: Config, rows: nat, cols: nat, i: nat)
    requires Shardable(t, c, rows, cols) && t.Valid() && Splits(t.shape, c.rowDim, rows) && Splits(t.shape, c.colDim, cols)
    requires (c.rowDim.Some? && c.colDim.None? && i < rows) || (c.rowDim.None? && c.colDim.Some? && i < cols)
    ensures var at := if c.rowDim.Some? then Times(i, cols) else i;
      && at < |Sharded(t, c, rows, cols, rows)|
      && Sharded(t, c, rows, cols, rows)[at] == if c.rowDim.Some? then Part(t, c.rowDim, rows, i) else Part(t, c.colDim, cols, i)
  {
    hide Part, Row, Sharded, Shardable;
    if c.rowDim.Some? {
      ShardedAt(t, c, rows, cols, i, 0);
      RowPart(t, c, rows, cols, i, 0);
      PartNone(Part(t, c.rowDim, rows, i), cols, 0);
    } else {
      ShardedAt(t, c, rows, cols, 0, i);
      RowPart(t, c, rows, cols, 0, i);
      PartNone(t, rows, 0);
    }
  }

  // How gathering ends: with a tensor, or reading the shard shape at a negative dimension.
  datatype Gathering = Gathered(full: Tensor) | OutsideShape

  // `ShardToFullShape`: gathering what a consistent sharding spread out gives the tensor back, whether
  // both mesh axes split it or only one; when none does, it reads outside the shard shape.
  method ShardToFullShape(shards: seq<Tensor>, rows: nat, cols: nat, shardType: M.ShardType, shardShape: seq<int>, shardDims: seq<int>, ghost t: Tensor)
      returns (outcome: Gathering)
    requires t.Valid() && rows > 0 && cols > 0
    requires Agrees(t, rows, cols, shardType, shardShape, shardDims) && IsSharded(t, rows, cols, shardType, shardDims, shards)
    ensures outcome.OutsideShape? <==> shardType != M.Replicate && shardDims[0] < 0 && shardDims[1] < 0
    ensures outcome.Gathered? ==> outcome.full == t
  {
    hide Sharded, Part, Stackable, Concat, Times;
    if shardType == M.Replicate {
      MulPositive(rows, cols);
      return Gathered(shards[0]);
    }
    var bFullConcat := forall i :: 0 <= i < |shardDims| ==> shardDims[i] >= 0;
    if bFullConcat {
      var full := ComposeRows(shards, rows, cols, shardDims[0], shardDims[1], t);
      return Gathered(full);
    }
    ghost var c := ConfigOf(shardDims);
    var stride, targetDim, iteration: nat;
    if shardDims[0] >= 0 {
      targetDim := shardDims[0];
      iteration := shardShape[targetDim];
      stride := cols;
    } else {
      if shardDims[1] < 0 {
        return OutsideShape;
      }
      targetDim := shardDims[1];
      iteration := shardShape[targetDim];
      stride := 1;
    }
    assert iteration == if shardDims[0] >= 0 then rows else cols;
    hide Shardable;
    ShardableFacts(t, c, rows, cols);
    var targets: seq<Tensor> := [];
    for i := 0 to iteration
      invariant |targets| == i && forall j :: 0 <= j < i ==> targets[j] == Part(t, Some(targetDim), iteration, j)
    {
      StridedPart(t, c, rows, cols, i);
      TimesIs(i, cols);
      targets := targets + [shards[i * stride]];
    }
    RowsJoin(t, targetDim, iteration, targets);
    outcome := Gathered(Concat(targets, targets[0].shape, targetDim));
  }

  // A tensor spread over a mesh that no axis of splits is on every device and is not gathered.
  method UnsplitIsNotGathered(t: Tensor, rows: nat, cols: nat) returns (outcome: Gathering)
    requires t.Valid() && rows > 0 && cols > 0
    ensures outcome == OutsideShape
  {
    var shards := FullToShardShape(t, rows, cols, M.Devices, [-1, -1]);
    outcome := ShardToFullShape(shards, rows, cols, M.Devices, [], [-1, -1], t);
  }
}
