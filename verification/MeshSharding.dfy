/**
 * `MeshSharding` of `lib/Conversion/StableHLOToTTIR/ShardingUtils.cpp`: how a parsed GSPMD or Shardy
 * sharding becomes tensor and mesh dimensions, and the tensor attribute it is stored in.
 */
module MeshSharding {
  import opened Permutations
  import opened Wrappers

  datatype ShardType = Identity | Replicate | Maximal | Devices

  datatype ShardDirection = FullToShard | ShardToFull

  // How the inference of the shard dimensions ends; the last would be an access outside the mesh.
  datatype Inference = Determined | NotTwoDimensional | Mismatch | OutsideMesh

  datatype AxisRef = AxisRef(name: string, isSubAxis: bool)

  datatype DimSharding = DimSharding(axes: seq<AxisRef>, isClosed: bool)

  datatype MeshAxis = MeshAxis(name: string, size: nat)

  datatype Parsed = Accepted | OpenDimension | SubAxis

  // One tensor dimension of the attribute: into how many shards, over which mesh axes.
  datatype AxisAttr = AxisAttr(shardShape: int, axes: seq<nat>)

  datatype TensorAttr = TensorAttr(meshName: string, axes: seq<AxisAttr>)

  function Product(s: seq<int>): int {
    if s == [] then 1 else Product(s[..|s| - 1]) * s[|s| - 1]
  }

  predicate AllPositive(s: seq<int>) {
    forall i :: 0 <= i < |s| ==> s[i] >= 1
  }

  lemma {:induction false} ProductPositive(s: seq<int>)
    requires AllPositive(s)
    ensures Product(s) >= 1
  {
    if s != [] {
      ProductPositive(s[..|s| - 1]);
      Grows(Product(s[..|s| - 1]), s[|s| - 1]);
    }
  }

  lemma Grows(a: int, b: int)
    requires a >= 1 && b >= 1
    ensures a * b >= a && a * b >= b
  {}

  /* The mesh of a GSPMD tile assignment */

  function NonUnit(s: seq<int>): seq<int> {
    if s == [] then [] else NonUnit(s[..|s| - 1]) + (if s[|s| - 1] != 1 then [s[|s| - 1]] else [])
  }

  // The mesh entry the k-th sharded dimension is matched with.
  function Slot(reverse: bool, count: int): int {
    if reverse then 1 - count else count
  }

  // The sharded dimensions are the mesh dimensions they are assigned to.
  ghost predicate Consistent(shardShape: seq<int>, shardDims: seq<int>, meshShape: seq<int>) {
    && |shardDims| == |meshShape|
    && (forall j :: 0 <= j < |shardDims| && shardDims[j] != -1 ==>
          0 <= shardDims[j] < |shardShape| && shardShape[shardDims[j]] == meshShape[j])
    && (forall j, k :: 0 <= j < k < |shardDims| && shardDims[j] >= 0 ==> shardDims[j] != shardDims[k])
  }

  // Every dimension split into more than one shard is assigned to a mesh dimension, and no other is.
  ghost predicate Complete(shardShape: seq<int>, shardDims: seq<int>) {
    forall i :: 0 <= i < |shardShape| ==> (shardShape[i] != 1 <==> i in shardDims)
  }

  // One dimension holds all the devices, so no other is sharded.
  lemma {:induction false} LineHasOne(s: seq<int>, i: nat)
    requires AllPositive(s) && i < |s| && s[i] == Product(s)
    ensures forall j :: 0 <= j < |s| && j != i ==> s[j] == 1
    decreases |s|
  {
    var n := |s| - 1;
    var front := s[..n];
    ProductPositive(front);
    if i == n {
      OneFactor(Product(front), s[n]);
      UnitProduct(front);
    } else {
      FactorBelow(front, i);
      SameProduct(Product(front), front[i], s[n]);
      LineHasOne(front, i);
      forall j | 0 <= j < n && j != i
        ensures s[j] == 1
      {
        assert front[j] == 1;
      }
    }
  }

  lemma OneFactor(a: int, b: int)
    requires a >= 1 && b >= 1 && a * b == b
    ensures a == 1
  {
    assert (a - 1) * b == 0;
  }

  // A product that is one of its positive factors' lower bound.
  lemma SameProduct(a: int, c: int, b: int)
    requires a >= c >= 1 && b >= 1 && a * b == c
    ensures b == 1 && a == c
  {
    Grows(a, b);
    OneFactor(b, a);
  }

  lemma {:induction false} FactorBelow(s: seq<int>, i: nat)
    requires AllPositive(s) && i < |s|
    ensures 1 <= s[i] <= Product(s)
  {
    var n := |s| - 1;
    ProductPositive(s[..n]);
    Grows(Product(s[..n]), s[n]);
    if i < n {
      FactorBelow(s[..n], i);
    }
  }

  lemma {:induction false} UnitProduct(s: seq<int>)
    requires AllPositive(s) && Product(s) == 1
    ensures forall j :: 0 <= j < |s| ==> s[j] == 1
  {
    forall j | 0 <= j < |s|
      ensures s[j] == 1
    {
      FactorBelow(s, j);
    }
  }

  lemma ProductSnoc(s: seq<int>, x: int)
    ensures Product(s + [x]) == Product(s) * x
  {
    assert (s + [x])[..|s|] == s;
  }

  lemma {:induction false} ProductOfNonUnit(s: seq<int>)
    ensures Product(NonUnit(s)) == Product(s)
  {
    if s != [] {
      ProductOfNonUnit(s[..|s| - 1]);
      ProductSnoc(NonUnit(s[..|s| - 1]), s[|s| - 1]);
      if s[|s| - 1] == 1 {
        assert NonUnit(s) == NonUnit(s[..|s| - 1]);
      }
    }
  }

  lemma {:induction false} NonUnitPrefix(s: seq<int>, k: nat)
    requires k <= |s|
    ensures NonUnit(s[..k]) <= NonUnit(s)
    decreases |s|
  {
    if k < |s| {
      assert s[..|s| - 1][..k] == s[..k];
      NonUnitPrefix(s[..|s| - 1], k);
    } else {
      assert s[..k] == s;
    }
  }

  lemma NonUnitNext(s: seq<int>, i: nat)
    requires i < |s|
    ensures NonUnit(s[..i + 1]) == NonUnit(s[..i]) + (if s[i] != 1 then [s[i]] else [])
  {
    assert s[..i + 1][..i] == s[..i];
  }

  lemma {:induction false} PrefixProduct(s: seq<int>, k: nat)
    requires AllPositive(s) && k <= |s|
    ensures 1 <= Product(s[..k]) <= Product(s)
    decreases |s|
  {
    if k < |s| {
      assert s[..|s| - 1][..k] == s[..k];
      PrefixProduct(s[..|s| - 1], k);
      Grows(Product(s[..|s| - 1]), s[|s| - 1]);
    } else {
      assert s[..k] == s;
      ProductPositive(s);
    }
  }

  // A line of devices leaves one sharded dimension at most.
  lemma LineHasOneNonUnit(s: seq<int>, l: nat)
    requires AllPositive(s) && l < |s| && s[l] == Product(s)
    ensures |NonUnit(s)| <= 1
  {
    LineHasOne(s, l);
    NonUnitUpTo(s, l, |s|);
    assert s[..|s|] == s;
  }

  lemma {:induction false} NonUnitUpTo(s: seq<int>, l: nat, k: nat)
    requires l < |s| && k <= |s| && forall j :: 0 <= j < |s| && j != l ==> s[j] == 1
    ensures |NonUnit(s[..k])| <= if k > l then 1 else 0
  {
    if k > 0 {
      NonUnitUpTo(s, l, k - 1);
      NonUnitNext(s, k - 1);
    }
  }

  // The hardware mesh the inference settles on.
  function HardwareMesh(tiles: seq<int>, mesh: seq<int>): seq<int> {
    if |mesh| != 1 then mesh else if Product(mesh) in tiles then [1, mesh[0]] else NonUnit(tiles)
  }

  // The sharded dimensions found so far are the mesh entries of their slots.
  predicate Matched(found: seq<int>, mesh: seq<int>, reverse: bool, first: nat)
    requires |mesh| == 2
  {
    && first + |found| <= 2
    && forall k :: 0 <= k < |found| ==> found[k] == mesh[Slot(reverse, first + k)]
  }

  // The sharded dimensions an assignment of all devices may have. A mesh given as one number takes a
  // line, or a split of exactly two dimensions. One given as two takes none, or the last mesh
  // dimension and then the first; a line it takes only along its first dimension.
  predicate FitsMesh(shape: seq<int>, tiles: seq<int>, mesh: seq<int>) {
    var found := NonUnit(shape);
    if |mesh| == 1 then Product(mesh) in tiles || |NonUnit(tiles)| == 2
    else
      && |mesh| == 2
      && (found == [] || if Product(mesh) in tiles then mesh[1] == 1 else found == [mesh[1]] || found == [mesh[1], mesh[0]])
  }

  lemma MatchedIffFits(tiles: seq<int>, shape: seq<int>, mesh: seq<int>)
    requires AllPositive(tiles) && AllPositive(mesh) && Product(tiles) == Product(mesh) && shape <= tiles
    ensures (|HardwareMesh(tiles, mesh)| == 2
             && Matched(NonUnit(shape), HardwareMesh(tiles, mesh), |mesh| != 1, if Product(mesh) in tiles then 1 else 0))
        <==> FitsMesh(shape, tiles, mesh)
  {
    hide Product, NonUnit;
    assert shape == tiles[..|shape|];
    NonUnitPrefix(tiles, |shape|);
    var found := NonUnit(shape);
    if Product(mesh) in tiles {
      LineFound(tiles, mesh);
    }
    if |mesh| == 1 {
      ProductOfOne(mesh);
    } else if |mesh| == 2 {
      ProductOfPair(mesh);
      if Product(mesh) in tiles {
        assert found == [] || found == [Product(mesh)];
        LineSlot(found, mesh, Product(mesh));
      } else {
        ReversedSlots(found, mesh);
      }
    }
  }

  lemma LineSlot(found: seq<int>, mesh: seq<int>, n: int)
    requires |mesh| == 2 && (found == [] || found == [n])
    ensures Matched(found, mesh, true, 1) <==> found == [] || n == mesh[0]
  {
    if Matched(found, mesh, true, 1) && found == [n] {
      assert found[0] == mesh[Slot(true, 1)];
    }
  }

  lemma ReversedSlots(found: seq<int>, mesh: seq<int>)
    requires |mesh| == 2
    ensures Matched(found, mesh, true, 0) <==> found == [] || found == [mesh[1]] || found == [mesh[1], mesh[0]]
  {
    if Matched(found, mesh, true, 0) {
      assert |found| > 0 ==> found[0] == mesh[1];
      assert |found| > 1 ==> found[1] == mesh[0];
    }
  }

  // All that is sharded by a line is one dimension over all devices.
  lemma LineFound(tiles: seq<int>, mesh: seq<int>)
    requires AllPositive(tiles) && Product(tiles) == Product(mesh) && Product(mesh) in tiles
    ensures NonUnit(tiles) == [] || NonUnit(tiles) == [Product(mesh)]
  {
    hide NonUnit;
    var l :| 0 <= l < |tiles| && tiles[l] == Product(tiles);
    LineHasOneNonUnit(tiles, l);
    ProductOfNonUnit(tiles);
    if NonUnit(tiles) != [] {
      ProductOfOne(NonUnit(tiles));
    }
  }

  lemma ProductOfOne(s: seq<int>)
    requires |s| == 1
    ensures Product(s) == s[0]
  {
    ProductSnoc([], s[0]);
    assert [] + [s[0]] == s;
  }

  lemma ProductOfPair(s: seq<int>)
    requires |s| == 2 && AllPositive(s)
    ensures Product(s) == s[0] * s[1] && (Product(s) == s[0] <==> s[1] == 1)
  {
    ProductOfOne(s[..1]);
    if s[0] * s[1] == s[0] {
      OneFactor(s[1], s[0]);
    }
  }

  // One dimension split over four devices fits the mesh [4, 1] but not [1, 4], which has the same devices.
  lemma LineFitsFirstDimension()
    ensures FitsMesh([4], [4], [4, 1]) && !FitsMesh([4], [4], [1, 4]) && FitsMesh([4], [4], [4])
  {
    ProductOfPair([4, 1]);
    ProductOfPair([1, 4]);
    ProductOfOne([4]);
    assert NonUnit([4]) == [4];
  }

  /* What fits, dimension by dimension */

  lemma {:induction false} NoneSharded(s: seq<int>)
    ensures NonUnit(s) == [] <==> forall d :: 0 <= d < |s| ==> s[d] == 1
  {
    if s != [] {
      var n := |s| - 1;
      NoneSharded(s[..n]);
      assert forall d :: 0 <= d < n ==> s[..n][d] == s[d];
    }
  }

  // Dimension `a` alone is split, or `a` and `b` and no other.
  predicate OneSplit(s: seq<int>, a: nat) {
    a < |s| && s[a] != 1 && forall d :: 0 <= d < |s| && d != a ==> s[d] == 1
  }

  predicate TwoSplit(s: seq<int>, a: nat, b: nat) {
    a < b < |s| && s[a] != 1 && s[b] != 1 && forall d :: 0 <= d < |s| && d != a && d != b ==> s[d] == 1
  }

  lemma {:induction false} OneSharded(s: seq<int>, a: nat)
    requires OneSplit(s, a)
    ensures NonUnit(s) == [s[a]]
  {
    var n := |s| - 1;
    if a == n {
      NoneSharded(s[..n]);
    } else {
      OneSharded(s[..n], a);
    }
  }

  lemma {:induction false} TwoSharded(s: seq<int>, a: nat, b: nat)
    requires TwoSplit(s, a, b)
    ensures NonUnit(s) == [s[a], s[b]]
  {
    var n := |s| - 1;
    if b == n {
      OneSharded(s[..n], a);
    } else {
      TwoSharded(s[..n], a, b);
    }
  }

  lemma {:induction false} WhichIsSharded(s: seq<int>) returns (a: nat)
    requires |NonUnit(s)| == 1
    ensures OneSplit(s, a)
  {
    var n := |s| - 1;
    assert forall d :: 0 <= d < n ==> s[..n][d] == s[d];
    if s[n] == 1 {
      a := WhichIsSharded(s[..n]);
    } else {
      a := n;
      NoneSharded(s[..n]);
    }
  }

  lemma {:induction false} WhichAreSharded(s: seq<int>) returns (a: nat, b: nat)
    requires |NonUnit(s)| == 2
    ensures TwoSplit(s, a, b)
  {
    var n := |s| - 1;
    assert forall d :: 0 <= d < n ==> s[..n][d] == s[d];
    if s[n] == 1 {
      a, b := WhichAreSharded(s[..n]);
    } else {
      a := WhichIsSharded(s[..n]);
      b := n;
    }
  }

  lemma NonUnitIs(s: seq<int>)
    ensures NonUnit(s) == [] <==> forall d :: 0 <= d < |s| ==> s[d] == 1
    ensures forall a: nat :: OneSplit(s, a) ==> NonUnit(s) == [s[a]]
    ensures |NonUnit(s)| == 1 ==> exists a: nat :: OneSplit(s, a)
    ensures forall a: nat, b: nat :: TwoSplit(s, a, b) ==> NonUnit(s) == [s[a], s[b]]
    ensures |NonUnit(s)| == 2 ==> exists a: nat, b: nat :: TwoSplit(s, a, b)
  {
    hide NonUnit;
    NoneSharded(s);
    forall a: nat | OneSplit(s, a)
      ensures NonUnit(s) == [s[a]]
    {
      OneSharded(s, a);
    }
    forall a: nat, b: nat | TwoSplit(s, a, b)
      ensures NonUnit(s) == [s[a], s[b]]
    {
      TwoSharded(s, a, b);
    }
    if |NonUnit(s)| == 1 {
      var a := WhichIsSharded(s);
    }
    if |NonUnit(s)| == 2 {
      var a, b := WhichAreSharded(s);
    }
  }

  // What the inference succeeds on, and the hardware mesh, for a mesh given as one number.
  lemma FitsOneNumber(shape: seq<int>, tiles: seq<int>, mesh: seq<int>)
    requires AllPositive(tiles) && AllPositive(mesh) && Product(tiles) == Product(mesh) && shape <= tiles && |mesh| == 1
    ensures FitsMesh(shape, tiles, mesh) <==> mesh[0] in tiles || exists a: nat, b: nat :: TwoSplit(tiles, a, b)
    ensures mesh[0] in tiles ==> HardwareMesh(tiles, mesh) == [1, mesh[0]]
    ensures mesh[0] !in tiles ==> forall a: nat, b: nat :: TwoSplit(tiles, a, b) ==> HardwareMesh(tiles, mesh) == [tiles[a], tiles[b]]
  {
    hide Product, NonUnit;
    ProductOfOne(mesh);
    NonUnitIs(tiles);
  }

  // And for a mesh given as several.
  lemma FitsTwoNumbers(shape: seq<int>, tiles: seq<int>, mesh: seq<int>)
    requires AllPositive(tiles) && AllPositive(mesh) && Product(tiles) == Product(mesh) && shape <= tiles && |mesh| != 1
    ensures HardwareMesh(tiles, mesh) == mesh
    ensures |mesh| != 2 ==> !FitsMesh(shape, tiles, mesh)
    ensures |mesh| == 2 && mesh[0] * mesh[1] in tiles ==>
      (FitsMesh(shape, tiles, mesh) <==> mesh[1] == 1 || forall d :: 0 <= d < |shape| ==> shape[d] == 1)
    ensures |mesh| == 2 && mesh[0] * mesh[1] !in tiles ==> (FitsMesh(shape, tiles, mesh) <==>
        || (forall d :: 0 <= d < |shape| ==> shape[d] == 1)
        || (exists a: nat :: OneSplit(shape, a) && shape[a] == mesh[1])
        || (exists a: nat, b: nat :: TwoSplit(shape, a, b) && shape[a] == mesh[1] && shape[b] == mesh[0]))
  {
    hide Product, NonUnit;
    if |mesh| == 2 {
      ProductOfTwo(mesh);
      NonUnitIs(shape);
    }
  }

  // There is a mesh entry left for every sharded dimension.
  lemma RoomForNext(tiles: seq<int>, shape: seq<int>, mesh0: seq<int>, i: nat)
    requires AllPositive(tiles) && AllPositive(mesh0) && Product(tiles) == Product(mesh0) && shape <= tiles
    requires |HardwareMesh(tiles, mesh0)| == 2 && i < |shape| && shape[i] != 1
    requires Matched(NonUnit(shape[..i]), HardwareMesh(tiles, mesh0), |mesh0| != 1, if Product(mesh0) in tiles then 1 else 0)
    ensures (if Product(mesh0) in tiles then 1 else 0) + |NonUnit(shape[..i])| < 2
  {
    assert shape[..i] == tiles[..i] && shape[i] == tiles[i];
    NonUnitPrefix(tiles, i + 1);
    NonUnitNext(tiles, i);
    var mesh := HardwareMesh(tiles, mesh0);
    if Product(mesh0) in tiles {
      var l :| 0 <= l < |tiles| && tiles[l] == Product(mesh0);
      LineHasOneNonUnit(tiles, l);
    } else if |mesh0| != 1 {
      var found := NonUnit(tiles[..i]);
      if |found| == 2 {
        TwoFillTheMesh(tiles, mesh0, i);
      }
    }
  }

  // Two dimensions that fill a two-dimensional mesh leave nothing to shard.
  lemma SwappedProduct(mesh: seq<int>)
    requires |mesh| == 2
    ensures Product([mesh[1], mesh[0]]) == Product(mesh)
  {
    hide Product;
    ProductOfTwo([mesh[1], mesh[0]]);
    ProductOfTwo(mesh);
  }

  lemma TwoFillTheMesh(tiles: seq<int>, mesh: seq<int>, i: nat)
    requires AllPositive(tiles) && AllPositive(mesh) && Product(tiles) == Product(mesh) && |mesh| == 2
    requires i < |tiles| && NonUnit(tiles[..i]) == [mesh[1], mesh[0]]
    ensures tiles[i] == 1
  {
    hide Product, NonUnit;
    var before := Product(tiles[..i]);
    ProductOfNonUnit(tiles[..i]);
    SwappedProduct(mesh);
    PrefixProduct(tiles, i);
    PrefixProduct(tiles, i + 1);
    assert tiles[..i + 1] == tiles[..i] + [tiles[i]];
    ProductSnoc(tiles[..i], tiles[i]);
    NoRoom(before, tiles[i]);
  }

  lemma ProductOfTwo(s: seq<int>)
    requires |s| == 2
    ensures Product(s) == s[0] * s[1]
  {
    assert s == ([] + [s[0]]) + [s[1]];
    ProductSnoc([] + [s[0]], s[1]);
    ProductSnoc([], s[0]);
  }

  lemma NoRoom(a: int, b: int)
    requires a >= 1 && b >= 1 && a * b <= a
    ensures b == 1
  {
    if b >= 2 {
      Grows(a, b - 1);
    }
  }

  // The state of the inference after the first i dimensions.
  ghost predicate Progress(shape: seq<int>, dims: seq<int>, mesh: seq<int>, reverse: bool, first: nat, count: nat, i: nat)
    requires |mesh| == 2 && i <= |shape|
  {
    && |dims| == 2 && count <= 2 && |NonUnit(shape[..i])| == count - first
    && Matched(NonUnit(shape[..i]), mesh, reverse, first)
    && Consistent(shape[..i], dims, mesh) && Complete(shape[..i], dims)
    && (forall c :: count <= c < 2 ==> dims[Slot(reverse, c)] == -1)
  }

  // The mesh dimensions are taken in the order of the tensor's.
  predicate InTensorOrder(dims: seq<int>, reverse: bool, first: nat, count: nat, i: nat) {
    && |dims| == 2 && count <= 2
    && (forall c :: 0 <= c < first && c < 2 ==> dims[Slot(reverse, c)] == -1)
    && (forall c :: count <= c < 2 ==> dims[Slot(reverse, c)] == -1)
    && (forall c :: first <= c < count ==> 0 <= dims[Slot(reverse, c)] < i)
    && (first == 0 && count == 2 ==> dims[Slot(reverse, 0)] < dims[Slot(reverse, 1)])
  }

  lemma OrderAssign(dims: seq<int>, reverse: bool, first: nat, count: nat, i: nat)
    requires InTensorOrder(dims, reverse, first, count, i) && first <= count < 2
    ensures InTensorOrder(dims[Slot(reverse, count) := i], reverse, first, count + 1, i + 1)
  {}

  lemma OrderDone(dims: seq<int>, reverse: bool, first: nat, count: nat, i: nat)
    requires InTensorOrder(dims, reverse, first, count, i) && first <= 1
    ensures |dims| == 2 && dims[0] >= -1 && dims[1] >= -1
    ensures first == 1 ==> dims[Slot(reverse, 0)] == -1
    ensures first == 0 ==> dims[Slot(reverse, 1)] == -1 || 0 <= dims[Slot(reverse, 0)] < dims[Slot(reverse, 1)]
  {
    assert dims[Slot(reverse, 0)] >= -1 && dims[Slot(reverse, 1)] >= -1;
  }

  lemma OrderSkip(dims: seq<int>, reverse: bool, first: nat, count: nat, i: nat)
    requires InTensorOrder(dims, reverse, first, count, i)
    ensures InTensorOrder(dims, reverse, first, count, i + 1)
  {}

  lemma NothingInOrder(reverse: bool, first: nat)
    requires first <= 1
    ensures InTensorOrder([-1, -1], reverse, first, first, 0)
  {}

  lemma NoProgress(shape: seq<int>, mesh: seq<int>, reverse: bool, first: nat)
    requires |mesh| == 2 && first <= 1
    ensures Progress(shape, [-1, -1], mesh, reverse, first, first, 0)
  {
    assert shape[..0] == [];
  }

  lemma ProgressSkip(shape: seq<int>, dims: seq<int>, mesh: seq<int>, reverse: bool, first: nat, count: nat, i: nat)
    requires |mesh| == 2 && i < |shape| && shape[i] == 1 && Progress(shape, dims, mesh, reverse, first, count, i)
    ensures Progress(shape, dims, mesh, reverse, first, count, i + 1)
  {
    hide NonUnit;
    NonUnitNext(shape, i);
    assert shape[..i + 1] == shape[..i] + [1];
    assert NonUnit(shape[..i + 1]) == NonUnit(shape[..i]);
  }

  lemma ProgressAssign(shape: seq<int>, dims: seq<int>, mesh: seq<int>, reverse: bool, first: nat, count: nat, i: nat)
    requires |mesh| == 2 && i < |shape| && Progress(shape, dims, mesh, reverse, first, count, i)
    requires count < 2 && shape[i] != 1 && shape[i] == mesh[Slot(reverse, count)]
    ensures |dims| == 2 && Progress(shape, dims[Slot(reverse, count) := i], mesh, reverse, first, count + 1, i + 1)
  {
    hide NonUnit;
    NonUnitNext(shape, i);
    assert shape[..i + 1] == shape[..i] + [shape[i]];
    var slot := Slot(reverse, count);
    var after := dims[slot := i];
    forall d | 0 <= d < i
      ensures d in after <==> d in dims
    {
      assert dims[slot] == -1;
      if d in dims {
        var j :| 0 <= j < 2 && dims[j] == d;
        assert after[j] == d;
      }
    }
    assert after[slot] == i;
    assert Complete(shape[..i + 1], after);
    assert Consistent(shape[..i + 1], after, mesh);
  }

  lemma MismatchFound(shape: seq<int>, mesh: seq<int>, reverse: bool, first: nat, count: nat, i: nat)
    requires |mesh| == 2 && i < |shape| && first <= count < 2 && |NonUnit(shape[..i])| == count - first
    requires shape[i] != 1 && shape[i] != mesh[Slot(reverse, count)]
    ensures !Matched(NonUnit(shape), mesh, reverse, first)
  {
    hide NonUnit;
    NonUnitNext(shape, i);
    NonUnitPrefix(shape, i + 1);
    assert NonUnit(shape)[count - first] == shape[i];
  }

  lemma ProgressDone(shape: seq<int>, dims: seq<int>, mesh: seq<int>, reverse: bool, first: nat, count: nat)
    requires |mesh| == 2 && Progress(shape, dims, mesh, reverse, first, count, |shape|)
    ensures Matched(NonUnit(shape), mesh, reverse, first) && Consistent(shape, dims, mesh) && Complete(shape, dims)
  {
    assert shape[..|shape|] == shape;
  }

  lemma ProgressCount(shape: seq<int>, dims: seq<int>, mesh: seq<int>, reverse: bool, first: nat, count: nat, i: nat)
    requires |mesh| == 2 && i <= |shape| && Progress(shape, dims, mesh, reverse, first, count, i)
    ensures |dims| == 2 && first <= count <= 2 && |NonUnit(shape[..i])| == count - first
    ensures Matched(NonUnit(shape[..i]), mesh, reverse, first)
  {}

  class MeshShardingInfo {
    var shardDirection: ShardDirection
    var shardType: ShardType
    var shardShape: seq<int>
    var shardDims: seq<int>
    var meshShape: seq<int>
    var deviceIds: seq<int>
    var meshName: string
    var lastTileDimReplicate: bool

    constructor ()
      ensures shardDims == [-1] && shardShape == [-1] && meshShape == [-1] && shardType == Identity
      ensures deviceIds == [-1] && meshName == "" && !lastTileDimReplicate && shardDirection == ShardToFull
    {
      shardDirection, shardType, shardShape, shardDims := ShardToFull, Identity, [-1], [-1];
      meshShape, deviceIds, meshName, lastTileDimReplicate := [-1], [-1], "", false;
    }

    // `determineGSPMDShardingDims`. A positive tile assignment of all the devices never leads outside
    // the mesh, and which assignments the inference succeeds on.
    method DetermineGSPMDShardingDims() returns (outcome: Inference)
      requires shardShape != [] && AllPositive(shardShape) && AllPositive(meshShape)
      requires Product(shardShape) == Product(meshShape)
      modifies this`shardShape, this`shardDims, this`meshShape
      ensures outcome != OutsideMesh
      ensures shardShape == if lastTileDimReplicate then old(shardShape)[..|old(shardShape)| - 1] else old(shardShape)
      ensures meshShape == HardwareMesh(old(shardShape), old(meshShape))
      ensures outcome.NotTwoDimensional? <==> |meshShape| != 2
      ensures outcome.Determined? <==> FitsMesh(shardShape, old(shardShape), old(meshShape))
      ensures outcome.Determined? ==> Consistent(shardShape, shardDims, meshShape) && Complete(shardShape, shardDims)
      // In order of the tensor a mesh given as one number is filled from the front, one given as two
      // from the back, and a line of devices leaves out the mesh dimension that would come first.
      ensures outcome.Determined? ==> |shardDims| == 2 && shardDims[0] >= -1 && shardDims[1] >= -1
      ensures outcome.Determined? && |old(meshShape)| == 1 && Product(old(meshShape)) in old(shardShape) ==> shardDims[0] == -1
      ensures outcome.Determined? && |old(meshShape)| == 1 && Product(old(meshShape)) !in old(shardShape) ==> shardDims[1] == -1 || 0 <= shardDims[0] < shardDims[1]
      ensures outcome.Determined? && |old(meshShape)| != 1 && Product(old(meshShape)) in old(shardShape) ==> shardDims[1] == -1
      ensures outcome.Determined? && |old(meshShape)| != 1 && Product(old(meshShape)) !in old(shardShape) ==> shardDims[0] == -1 || 0 <= shardDims[1] < shardDims[0]
    {
      hide Product, NonUnit, FitsMesh, Matched;
      var orgShardShape := shardShape;
      ghost var mesh0 := meshShape;
      if lastTileDimReplicate {
        shardShape := shardShape[..|shardShape| - 1];
      }
      var reverseOrder := |meshShape| != 1;
      var totalDevices := Product(meshShape);
      var isLineDeviceConfig := totalDevices in orgShardShape;
      if !reverseOrder {
        if isLineDeviceConfig {
          meshShape := [1, meshShape[0]];
        } else {
          meshShape := NonUnit(orgShardShape);
        }
      }
      MatchedIffFits(orgShardShape, shardShape, mesh0);
      if |meshShape| != 2 {
        return NotTwoDimensional;
      }
      outcome := AssignShardDims(reverseOrder, isLineDeviceConfig, orgShardShape, mesh0);
    }

    // The loop that matches the sharded dimensions with the mesh.
    method AssignShardDims(reverseOrder: bool, isLineDeviceConfig: bool, ghost tiles: seq<int>, ghost mesh0: seq<int>) returns (outcome: Inference)
      requires AllPositive(tiles) && AllPositive(mesh0) && Product(tiles) == Product(mesh0) && shardShape <= tiles
      requires meshShape == HardwareMesh(tiles, mesh0) && |meshShape| == 2
      requires reverseOrder == (|mesh0| != 1) && isLineDeviceConfig == (Product(mesh0) in tiles)
      modifies this`shardDims
      ensures outcome in {Determined, Mismatch}
      ensures outcome.Determined? <==> Matched(NonUnit(shardShape), meshShape, reverseOrder, if isLineDeviceConfig then 1 else 0)
      ensures outcome.Determined? ==> Consistent(shardShape, shardDims, meshShape) && Complete(shardShape, shardDims)
      ensures outcome.Determined? ==> |shardDims| == 2 && shardDims[0] >= -1 && shardDims[1] >= -1
      ensures outcome.Determined? && !reverseOrder && isLineDeviceConfig ==> shardDims[0] == -1
      ensures outcome.Determined? && !reverseOrder && !isLineDeviceConfig ==> shardDims[1] == -1 || 0 <= shardDims[0] < shardDims[1]
      ensures outcome.Determined? && reverseOrder && isLineDeviceConfig ==> shardDims[1] == -1
      ensures outcome.Determined? && reverseOrder && !isLineDeviceConfig ==> shardDims[0] == -1 || 0 <= shardDims[1] < shardDims[0]
    {
      hide Product, NonUnit, Matched, HardwareMesh, Progress, InTensorOrder, Consistent, Complete;
      shardDims := [-1, -1];
      var shardingCnt := if isLineDeviceConfig then 1 else 0;
      ghost var first, shape, mesh := shardingCnt, shardShape, meshShape;
      NoProgress(shape, mesh, reverseOrder, first);
      NothingInOrder(reverseOrder, first);
      for i := 0 to |shardShape|
        invariant 0 <= shardingCnt
        invariant Progress(shape, shardDims, mesh, reverseOrder, first, shardingCnt, i)
        invariant InTensorOrder(shardDims, reverseOrder, first, shardingCnt, i)
      {
        ProgressCount(shape, shardDims, mesh, reverseOrder, first, shardingCnt, i);
        // Only a dimension split into several shards takes a mesh dimension.
        if shardShape[i] != 1 {
          RoomForNext(tiles, shape, mesh0, i);
          var shardDimIdx := Slot(reverseOrder, shardingCnt);
          if !(0 <= shardDimIdx < |meshShape|) {
            return OutsideMesh;
          }
          if shardShape[i] > 0 && shardShape[i] != meshShape[shardDimIdx] {
            MismatchFound(shape, mesh, reverseOrder, first, shardingCnt, i);
            return Mismatch;
          }
          ProgressAssign(shape, shardDims, mesh, reverseOrder, first, shardingCnt, i);
          OrderAssign(shardDims, reverseOrder, first, shardingCnt, i);
          shardDims := shardDims[shardDimIdx := i];
          shardingCnt := shardingCnt + 1;
        } else {
          ProgressSkip(shape, shardDims, mesh, reverseOrder, first, shardingCnt, i);
          OrderSkip(shardDims, reverseOrder, first, shardingCnt, i);
        }
      }
      OrderDone(shardDims, reverseOrder, first, shardingCnt, |shape|);
      ProgressDone(shape, shardDims, mesh, reverseOrder, first, shardingCnt);
      outcome := Determined;
    }

    // `parseSdySharding`.
    method ParseSdySharding(dims: seq<DimSharding>, mesh: seq<MeshAxis>) returns (outcome: Parsed)
      requires NamesDistinct(mesh) && PositiveSizes(mesh) && AxesOfMesh(dims, mesh) && EachAxisOnce(dims)
      modifies this`shardShape, this`shardDims, this`meshShape
      ensures outcome.OpenDimension? <==> exists d :: 0 <= d < |dims| && !dims[d].isClosed
      ensures outcome.SubAxis? <==>
        && (forall d :: 0 <= d < |dims| ==> dims[d].isClosed)
        && (exists d, k :: 0 <= d < |dims| && 0 <= k < |dims[d].axes| && dims[d].axes[k].isSubAxis)
      ensures |shardShape| == |dims| && meshShape == Sizes(mesh)
      ensures outcome.Accepted? ==> Assigned(dims, mesh, shardShape, shardDims)
    {
      hide Product, ShardsOver, EachAxisOnce, AxesOfMesh, NamesDistinct, PositiveSizes, Positions;
      shardShape := seq(|dims|, (i: nat) requires i < |dims| => 1);
      shardDims := seq(|mesh|, (i: nat) requires i < |mesh| => -1);
      meshShape := [];
      var axisPosition: map<string, nat> := map[];
      NoPositions(mesh);
      for i := 0 to |mesh|
        modifies this`meshShape
        invariant meshShape == Sizes(mesh[..i]) && Positions(mesh, i, axisPosition)
      {
        PositionsNext(mesh, i, axisPosition);
        axisPosition := axisPosition[mesh[i].name := i];
        meshShape := meshShape + [mesh[i].size];
        assert mesh[..i + 1] == mesh[..i] + [mesh[i]];
      }
      assert mesh[..|mesh|] == mesh;
      if exists d :: 0 <= d < |dims| && !dims[d].isClosed {
        return OpenDimension;
      }
      NothingAssigned(dims, mesh, shardShape, shardDims);
      NoneYet(dims);
      hide SoFar, Assigned, NoSubAxisBefore, PlacedIn;
      for d := 0 to |dims|
        modifies this`shardShape, this`shardDims
        invariant |shardShape| == |dims| && |shardDims| == |mesh|
        invariant SoFar(dims, mesh, shardShape, shardDims, d, 0) && NoSubAxisBefore(dims, d, 0)
      {
        for k := 0 to |dims[d].axes|
          modifies this`shardShape, this`shardDims
          invariant |shardShape| == |dims| && |shardDims| == |mesh|
          invariant SoFar(dims, mesh, shardShape, shardDims, d, k) && NoSubAxisBefore(dims, d, k)
        {
          var axis := dims[d].axes[k];
          if axis.isSubAxis {
            SubAxisFound(dims, d, k);
            return SubAxis;
          }
          AxisInMesh(dims, mesh, d, k);
          AxisHasPosition(mesh, axis.name, axisPosition);
          var size := SizeOf(mesh, axis.name);
          var at := axisPosition[axis.name];
          AxisIsAt(mesh, axis.name, at);
          SoFarNext(dims, mesh, shardShape, shardDims, d, k, at);
          NoSubAxisNext(dims, d, k);
          shardShape := shardShape[d := shardShape[d] * size];
          if size > 1 {
            shardDims := shardDims[at := d];
          }
        }
        SoFarDim(dims, mesh, shardShape, shardDims, d);
        NoSubAxisDim(dims, d);
      }
      AllAssigned(dims, mesh, shardShape, shardDims);
      NoSubAxis(dims);
      outcome := Accepted;
    }

    // `getTensorMeshShardingAttr`.
    method GetTensorMeshShardingAttr() returns (attr: Option<TensorAttr>)
      requires shardType == Devices ==> forall j :: 0 <= j < |shardDims| ==> shardDims[j] < |shardShape|
      ensures attr.None? <==> meshShape == []
      ensures attr.Some? ==> attr.value.meshName == meshName
      ensures attr.Some? && shardType != Devices ==> attr.value.axes == []
      ensures attr.Some? && shardType == Devices ==> Stores(attr.value.axes, shardShape, shardDims)
      ensures attr.Some? && shardType == Devices ==> |attr.value.axes| == |shardShape|
      ensures attr.Some? && shardType == Devices ==> forall d :: 0 <= d < |shardShape| ==>
        && attr.value.axes[d].shardShape == shardShape[d]
        && (forall i, j :: 0 <= i < j < |attr.value.axes[d].axes| ==> attr.value.axes[d].axes[i] < attr.value.axes[d].axes[j])
        && (forall j: nat :: j in attr.value.axes[d].axes <==> j < |shardDims| && shardDims[j] == d)
    {
      if meshShape == [] {
        return None;
      }
      if shardType != Devices {
        return Some(TensorAttr(meshName, []));
      }
      var n := |shardShape|;
      var tensorAxes: seq<seq<nat>> := seq(n, (i: nat) requires i < n => []);
      for j := 0 to |shardDims|
        invariant |tensorAxes| == |shardShape|
        invariant forall d :: 0 <= d < |shardShape| ==> Ascending(tensorAxes[d]) && forall x: nat :: x in tensorAxes[d] <==> x < j && shardDims[x] == d
      {
        if shardDims[j] >= 0 {
          var d := shardDims[j];
          assert forall i :: 0 <= i < |tensorAxes[d]| ==> tensorAxes[d][i] in tensorAxes[d];
          tensorAxes := tensorAxes[d := tensorAxes[d] + [j]];
        }
      }
      var axes: seq<AxisAttr> := [];
      for d := 0 to |shardShape|
        invariant |axes| == d && forall e :: 0 <= e < d ==> axes[e] == AxisAttr(shardShape[e], tensorAxes[e])
      {
        axes := axes + [AxisAttr(shardShape[d], tensorAxes[d])];
      }
      attr := Some(TensorAttr(meshName, axes));
    }

    // `extractMeshShardingFromTensorMeshShardingAttr`: mesh dimensions no axis names keep what the
    // object had, as far as it reached.
    method ExtractMeshSharding(name: string, mesh: seq<int>, axes: seq<AxisAttr>, direction: ShardDirection)
      requires forall d, j :: 0 <= d < |axes| && j in axes[d].axes ==> j < |mesh|
      modifies this
      ensures meshName == name && meshShape == mesh && shardDirection == direction && shardType == Devices
      ensures deviceIds == old(deviceIds) && lastTileDimReplicate == old(lastTileDimReplicate)
      ensures shardShape == seq(|axes|, (d: nat) requires d < |axes| => axes[d].shardShape)
      ensures |shardDims| == |mesh|
      ensures forall j: nat :: j < |mesh| ==> shardDims[j] == LastDim(axes, j, Stale(old(shardDims), j))
    {
      meshName, meshShape, shardDirection := name, mesh, direction;
      shardShape := Resized(shardShape, |axes|, 0);
      shardDims := Resized(shardDims, |mesh|, -1);
      for d := 0 to |axes|
        modifies this`shardShape, this`shardDims
        invariant |shardShape| == |axes| && |shardDims| == |mesh|
        invariant forall e :: 0 <= e < d ==> shardShape[e] == axes[e].shardShape
        invariant forall j: nat :: j < |mesh| ==> shardDims[j] == LastDim(axes[..d], j, Stale(old(shardDims), j))
      {
        shardShape := shardShape[d := axes[d].shardShape];
        ghost var before := shardDims;
        for k := 0 to |axes[d].axes|
          modifies this`shardDims
          invariant |shardDims| == |mesh|
          invariant forall j: nat :: j < |mesh| ==> shardDims[j] == if j in axes[d].axes[..k] then d else before[j]
        {
          var deviceDim := axes[d].axes[k];
          assert deviceDim in axes[d].axes;
          shardDims := shardDims[deviceDim := d];
          assert axes[d].axes[..k + 1] == axes[d].axes[..k] + [deviceDim];
        }
        assert axes[d].axes[..|axes[d].axes|] == axes[d].axes;
        assert axes[..d + 1][..d] == axes[..d];
      }
      assert axes[..|axes|] == axes;
      shardType := Devices;
    }
  }

  /* A Shardy sharding */

  predicate NamesDistinct(mesh: seq<MeshAxis>) {
    forall i, j :: 0 <= i < j < |mesh| ==> mesh[i].name != mesh[j].name
  }

  predicate AxesOfMesh(dims: seq<DimSharding>, mesh: seq<MeshAxis>) {
    forall d, k :: 0 <= d < |dims| && 0 <= k < |dims[d].axes| ==> IsAxis(mesh, dims[d].axes[k].name)
  }

  predicate IsAxis(mesh: seq<MeshAxis>, name: string) {
    exists i :: 0 <= i < |mesh| && mesh[i].name == name
  }

  // An axis shards at most one dimension, once.
  predicate EachAxisOnce(dims: seq<DimSharding>) {
    forall d, k, e, m :: 0 <= d < |dims| && 0 <= k < |dims[d].axes| && 0 <= e < |dims| && 0 <= m < |dims[e].axes| ==>
      dims[d].axes[k].name == dims[e].axes[m].name ==> d == e && k == m
  }

  function Sizes(mesh: seq<MeshAxis>): (r: seq<int>)
    ensures |r| == |mesh|
  {
    seq(|mesh|, (i: nat) requires i < |mesh| => mesh[i].size as int)
  }

  function SizeOf(mesh: seq<MeshAxis>, name: string): nat
    requires IsAxis(mesh, name)
  {
    if mesh[0].name == name then mesh[0].size else SizeOf(mesh[1..], name)
  }

  // The product of the mesh dimensions assigned to a tensor dimension.
  function ShardsOver(mesh: seq<MeshAxis>, shardDims: seq<int>, d: int, n: nat): int
    requires n <= |mesh| && |shardDims| == |mesh|
  {
    if n == 0 then 1 else ShardsOver(mesh, shardDims, d, n - 1) * (if shardDims[n - 1] == d then mesh[n - 1].size else 1)
  }

  // The first d dimensions, and the first k axes of the next, have been entered.
  ghost predicate Entered(dims: seq<DimSharding>, d: nat, k: nat, name: string, e: nat) {
    exists m :: 0 <= e < |dims| && 0 <= m < |dims[e].axes| && dims[e].axes[m].name == name && (e < d || (e == d && m < k))
  }

  ghost predicate SoFar(dims: seq<DimSharding>, mesh: seq<MeshAxis>, shape: seq<int>, shardDims: seq<int>, d: nat, k: nat) {
    && |shape| == |dims| && |shardDims| == |mesh|
    && (forall e :: 0 <= e < |dims| ==> shape[e] == ShardsOver(mesh, shardDims, e, |mesh|))
    && (forall j :: 0 <= j < |mesh| ==> PlacedIn(dims, mesh[j], shardDims[j], d, k))
  }

  // A mesh dimension is assigned to the tensor dimension that names it, once that has been entered.
  ghost predicate PlacedIn(dims: seq<DimSharding>, axis: MeshAxis, at: int, d: nat, k: nat) {
    && (at != -1 ==> 0 <= at < |dims| && axis.size != 1 && Entered(dims, d, k, axis.name, at))
    && (forall e: nat :: axis.size > 1 && Entered(dims, d, k, axis.name, e) ==> at == e)
  }

  // A tensor dimension has as many shards as the mesh dimensions assigned to it have devices, and a
  // mesh dimension of more than one device is assigned to the dimension that names it, if any does;
  // one of a single device is assigned to none.
  ghost predicate Assigned(dims: seq<DimSharding>, mesh: seq<MeshAxis>, shape: seq<int>, shardDims: seq<int>) {
    && |shape| == |dims| && |shardDims| == |mesh|
    && (forall e :: 0 <= e < |dims| ==> shape[e] == ShardsOver(mesh, shardDims, e, |mesh|))
    && (forall j :: 0 <= j < |mesh| ==> shardDims[j] == -1 || 0 <= shardDims[j] < |dims|)
    && (forall j :: 0 <= j < |mesh| && mesh[j].size == 1 ==> shardDims[j] == -1)
    && (forall j, e: nat :: 0 <= j < |mesh| && e < |dims| && mesh[j].size > 1 ==>
          (shardDims[j] == e <==> exists m :: 0 <= m < |dims[e].axes| && dims[e].axes[m].name == mesh[j].name))
  }

  // The sizes of the first n mesh dimensions, with 1 for those that went elsewhere than to e.
  function SizesFor(mesh: seq<MeshAxis>, shardDims: seq<int>, e: int, n: nat): (r: seq<int>)
    requires n <= |mesh| && |shardDims| == |mesh|
    ensures |r| == n && forall j :: 0 <= j < n ==> r[j] == if shardDims[j] == e then mesh[j].size else 1
  {
    seq(n, (j: nat) requires j < n => if shardDims[j] == e then mesh[j].size as int else 1)
  }

  predicate Names(d: DimSharding, name: string) {
    exists m :: 0 <= m < |d.axes| && d.axes[m].name == name
  }

  lemma WhereItWent(dims: seq<DimSharding>, mesh: seq<MeshAxis>, shape: seq<int>, shardDims: seq<int>, j: nat, e: nat)
    requires Assigned(dims, mesh, shape, shardDims) && j < |mesh| && e < |dims| && mesh[j].size >= 1
    ensures shardDims[j] == e <==> mesh[j].size != 1 && Names(dims[e], mesh[j].name)
  {
    if mesh[j].size > 1 {
      if Names(dims[e], mesh[j].name) {
        assert shardDims[j] == e;
      }
    }
  }

  // Mesh dimension j goes to tensor dimension e exactly when it has several devices and e names it, and
  // e is split into the product of the sizes of the mesh dimensions that went to it.
  lemma AssignedIs(dims: seq<DimSharding>, mesh: seq<MeshAxis>, shape: seq<int>, shardDims: seq<int>)
    requires Assigned(dims, mesh, shape, shardDims) && forall j :: 0 <= j < |mesh| ==> mesh[j].size >= 1
    ensures |shape| == |dims| && |shardDims| == |mesh|
    ensures forall j: nat, e: nat :: j < |mesh| && e < |dims| ==>
      (shardDims[j] == e <==> mesh[j].size != 1 && Names(dims[e], mesh[j].name))
    ensures forall j :: 0 <= j < |mesh| ==> -1 <= shardDims[j] < |dims|
    ensures forall e :: 0 <= e < |dims| ==> shape[e] == Product(SizesFor(mesh, shardDims, e, |mesh|))
  {
    hide Product, ShardsOver, SizesFor, Names;
    assert |shape| == |dims| && |shardDims| == |mesh|;
    forall j: nat, e: nat | j < |mesh| && e < |dims|
      ensures shardDims[j] == e <==> mesh[j].size != 1 && Names(dims[e], mesh[j].name)
    {
      WhereItWent(dims, mesh, shape, shardDims, j, e);
    }
    forall e | 0 <= e < |dims|
      ensures shape[e] == Product(SizesFor(mesh, shardDims, e, |mesh|))
    {
      ShardsOverIs(mesh, shardDims, e, |mesh|);
    }
  }

  lemma {:induction false} ShardsOverIs(mesh: seq<MeshAxis>, shardDims: seq<int>, e: int, n: nat)
    requires n <= |mesh| && |shardDims| == |mesh|
    ensures ShardsOver(mesh, shardDims, e, n) == Product(SizesFor(mesh, shardDims, e, n))
  {
    if n > 0 {
      ShardsOverIs(mesh, shardDims, e, n - 1);
      var s := SizesFor(mesh, shardDims, e, n);
      assert s[..n - 1] == SizesFor(mesh, shardDims, e, n - 1);
    }
  }

  predicate PositiveSizes(mesh: seq<MeshAxis>) {
    forall i :: 0 <= i < |mesh| ==> mesh[i].size >= 1
  }

  lemma AxisInMesh(dims: seq<DimSharding>, mesh: seq<MeshAxis>, d: nat, k: nat)
    requires AxesOfMesh(dims, mesh) && d < |dims| && k < |dims[d].axes|
    ensures IsAxis(mesh, dims[d].axes[k].name)
  {}

  lemma {:induction false} AxisIsAt(mesh: seq<MeshAxis>, name: string, at: nat)
    requires NamesDistinct(mesh) && at < |mesh| && mesh[at].name == name
    ensures SizeOf(mesh, name) == mesh[at].size
  {
    if at > 0 {
      assert mesh[0].name != mesh[at].name;
      assert mesh[1..][at - 1] == mesh[at];
      AxisIsAt(mesh[1..], name, at - 1);
    }
  }

  lemma {:induction false} ShardsOverNone(mesh: seq<MeshAxis>, shardDims: seq<int>, d: nat, n: nat)
    requires n <= |mesh| == |shardDims| && forall j :: 0 <= j < n ==> shardDims[j] == -1
    ensures ShardsOver(mesh, shardDims, d, n) == 1
  {
    if n > 0 {
      ShardsOverNone(mesh, shardDims, d, n - 1);
    }
  }

  lemma Commute(a: int, b: int, c: int)
    ensures a * b * c == a * c * b
  {}

  // Assigning a mesh dimension multiplies the shards of one tensor dimension and no other.
  lemma {:induction false} ShardsOverMore(mesh: seq<MeshAxis>, shardDims: seq<int>, at: nat, d: nat, e: nat, n: nat)
    requires n <= |mesh| == |shardDims| && at < |mesh| && shardDims[at] == -1
    ensures ShardsOver(mesh, shardDims[at := d], e, n)
            == ShardsOver(mesh, shardDims, e, n) * (if e == d && at < n then mesh[at].size else 1)
  {
    if n > 0 {
      ShardsOverMore(mesh, shardDims, at, d, e, n - 1);
      var before := ShardsOver(mesh, shardDims, e, n - 1);
      var factor := if shardDims[n - 1] == e then mesh[n - 1].size else 1;
      var more := if e == d && at < n - 1 then mesh[at].size else 1;
      Commute(before, more, factor);
    }
  }

  lemma NothingAssigned(dims: seq<DimSharding>, mesh: seq<MeshAxis>, shape: seq<int>, shardDims: seq<int>)
    requires |shape| == |dims| && |shardDims| == |mesh|
    requires (forall e :: 0 <= e < |shape| ==> shape[e] == 1) && forall j :: 0 <= j < |shardDims| ==> shardDims[j] == -1
    ensures SoFar(dims, mesh, shape, shardDims, 0, 0)
  {
    hide ShardsOver;
    forall e | 0 <= e < |dims|
      ensures shape[e] == ShardsOver(mesh, shardDims, e, |mesh|)
    {
      ShardsOverNone(mesh, shardDims, e, |mesh|);
    }
  }

  lemma EnteredMore(dims: seq<DimSharding>, d: nat, k: nat, name: string, e: nat)
    requires d < |dims| && k < |dims[d].axes|
    ensures Entered(dims, d, k + 1, name, e) <==> Entered(dims, d, k, name, e) || (e == d && dims[d].axes[k].name == name)
  {
    if Entered(dims, d, k, name, e) {
      var m :| 0 <= e < |dims| && 0 <= m < |dims[e].axes| && dims[e].axes[m].name == name && (e < d || (e == d && m < k));
    }
  }

  lemma NotEntered(dims: seq<DimSharding>, d: nat, k: nat, e: nat)
    requires EachAxisOnce(dims) && d < |dims| && k < |dims[d].axes|
    ensures !Entered(dims, d, k, dims[d].axes[k].name, e)
  {}

  lemma SoFarNext(dims: seq<DimSharding>, mesh: seq<MeshAxis>, shape: seq<int>, shardDims: seq<int>, d: nat, k: nat, at: nat)
    requires NamesDistinct(mesh) && PositiveSizes(mesh) && EachAxisOnce(dims) && SoFar(dims, mesh, shape, shardDims, d, k)
    requires d < |dims| && k < |dims[d].axes| && at < |mesh| && mesh[at].name == dims[d].axes[k].name
    ensures SoFar(dims, mesh, shape[d := shape[d] * mesh[at].size], if mesh[at].size > 1 then shardDims[at := d] else shardDims, d, k + 1)
  {
    hide ShardsOver, EachAxisOnce, Entered;
    var size := mesh[at].size;
    var after := if size > 1 then shardDims[at := d] else shardDims;
    if shardDims[at] != -1 {
      NotEntered(dims, d, k, shardDims[at]);
    }
    forall e | 0 <= e < |dims|
      ensures shape[d := shape[d] * size][e] == ShardsOver(mesh, after, e, |mesh|)
    {
      if size > 1 {
        ShardsOverMore(mesh, shardDims, at, d, e, |mesh|);
      }
    }
    forall j | 0 <= j < |mesh|
      ensures PlacedIn(dims, mesh[j], after[j], d, k + 1)
    {
      PlacedNext(dims, mesh[j], shardDims[j], d, k);
      if j != at {
        assert mesh[j].name != mesh[at].name;
      }
    }
  }

  lemma PlacedNext(dims: seq<DimSharding>, axis: MeshAxis, at: int, d: nat, k: nat)
    requires EachAxisOnce(dims) && d < |dims| && k < |dims[d].axes| && PlacedIn(dims, axis, at, d, k)
    ensures PlacedIn(dims, axis, if dims[d].axes[k].name == axis.name && axis.size > 1 then d else at, d, k + 1)
  {
    hide EachAxisOnce, Entered;
    var after := if dims[d].axes[k].name == axis.name && axis.size > 1 then d else at;
    if after != -1 {
      EnteredMore(dims, d, k, axis.name, after);
    }
    var next := k + 1;
    forall e: nat | axis.size > 1 && Entered(dims, d, next, axis.name, e)
      ensures after == e
    {
      EnteredMore(dims, d, k, axis.name, e);
      if dims[d].axes[k].name == axis.name {
        NotEntered(dims, d, k, e);
      }
    }
  }

  lemma EnteredDim(dims: seq<DimSharding>, d: nat, name: string, e: nat)
    requires d < |dims|
    ensures Entered(dims, d + 1, 0, name, e) <==> Entered(dims, d, |dims[d].axes|, name, e)
  {
    if Entered(dims, d + 1, 0, name, e) {
      var m :| 0 <= e < |dims| && 0 <= m < |dims[e].axes| && dims[e].axes[m].name == name && (e < d + 1 || (e == d + 1 && m < 0));
    }
    if Entered(dims, d, |dims[d].axes|, name, e) {
      var m :| 0 <= e < |dims| && 0 <= m < |dims[e].axes| && dims[e].axes[m].name == name && (e < d || (e == d && m < |dims[d].axes|));
    }
  }

  lemma SoFarDim(dims: seq<DimSharding>, mesh: seq<MeshAxis>, shape: seq<int>, shardDims: seq<int>, d: nat)
    requires d < |dims| && SoFar(dims, mesh, shape, shardDims, d, |dims[d].axes|)
    ensures SoFar(dims, mesh, shape, shardDims, d + 1, 0)
  {
    hide ShardsOver, Entered;
    forall j | 0 <= j < |mesh|
      ensures PlacedIn(dims, mesh[j], shardDims[j], d + 1, 0)
    {
      assert PlacedIn(dims, mesh[j], shardDims[j], d, |dims[d].axes|);
      if shardDims[j] != -1 {
        EnteredDim(dims, d, mesh[j].name, shardDims[j]);
      }
      var next := d + 1;
      forall e: nat | mesh[j].size > 1 && Entered(dims, next, 0, mesh[j].name, e)
        ensures shardDims[j] == e
      {
        EnteredDim(dims, d, mesh[j].name, e);
      }
    }
  }

  lemma AllAssigned(dims: seq<DimSharding>, mesh: seq<MeshAxis>, shape: seq<int>, shardDims: seq<int>)
    requires SoFar(dims, mesh, shape, shardDims, |dims|, 0)
    ensures Assigned(dims, mesh, shape, shardDims)
  {
    hide ShardsOver;
    assert forall j :: 0 <= j < |mesh| ==> PlacedIn(dims, mesh[j], shardDims[j], |dims|, 0);
    forall j, e: nat | 0 <= j < |mesh| && e < |dims| && mesh[j].size > 1
      ensures shardDims[j] == e <==> exists m :: 0 <= m < |dims[e].axes| && dims[e].axes[m].name == mesh[j].name
    {
      if m :| 0 <= m < |dims[e].axes| && dims[e].axes[m].name == mesh[j].name {
        assert Entered(dims, |dims|, 0, mesh[j].name, e);
      }
      if shardDims[j] == e {
        assert Entered(dims, |dims|, 0, mesh[j].name, e);
      }
    }
  }

  lemma SubAxisFound(dims: seq<DimSharding>, d: nat, k: nat)
    requires d < |dims| && k < |dims[d].axes| && dims[d].axes[k].isSubAxis
    ensures exists e, m :: 0 <= e < |dims| && 0 <= m < |dims[e].axes| && dims[e].axes[m].isSubAxis
  {}

  ghost predicate NoSubAxisBefore(dims: seq<DimSharding>, d: nat, k: nat) {
    forall e, m :: 0 <= e < |dims| && 0 <= m < |dims[e].axes| && (e < d || (e == d && m < k)) ==> !dims[e].axes[m].isSubAxis
  }

  lemma NoneYet(dims: seq<DimSharding>)
    ensures NoSubAxisBefore(dims, 0, 0)
  {}

  lemma NoSubAxisNext(dims: seq<DimSharding>, d: nat, k: nat)
    requires NoSubAxisBefore(dims, d, k) && d < |dims| && k < |dims[d].axes| && !dims[d].axes[k].isSubAxis
    ensures NoSubAxisBefore(dims, d, k + 1)
  {}

  lemma NoSubAxisDim(dims: seq<DimSharding>, d: nat)
    requires d < |dims| && NoSubAxisBefore(dims, d, |dims[d].axes|)
    ensures NoSubAxisBefore(dims, d + 1, 0)
  {}

  lemma NoSubAxis(dims: seq<DimSharding>)
    requires NoSubAxisBefore(dims, |dims|, 0)
    ensures forall e, m :: 0 <= e < |dims| && 0 <= m < |dims[e].axes| ==> !dims[e].axes[m].isSubAxis
  {}

  // The table of axis positions after the first i axes.
  ghost predicate Positions(mesh: seq<MeshAxis>, i: nat, positions: map<string, nat>)
    requires i <= |mesh|
  {
    && (forall j :: 0 <= j < i ==> mesh[j].name in positions)
    && (forall n :: n in positions ==> positions[n] < i && mesh[positions[n]].name == n)
  }

  lemma NoPositions(mesh: seq<MeshAxis>)
    ensures Positions(mesh, 0, map[])
  {}

  lemma PositionsNext(mesh: seq<MeshAxis>, i: nat, positions: map<string, nat>)
    requires i < |mesh| && Positions(mesh, i, positions)
    ensures Positions(mesh, i + 1, positions[mesh[i].name := i])
  {}

  lemma AxisHasPosition(mesh: seq<MeshAxis>, name: string, positions: map<string, nat>)
    requires IsAxis(mesh, name) && Positions(mesh, |mesh|, positions)
    ensures name in positions && positions[name] < |mesh| && mesh[positions[name]].name == name
  {}

  /* The attribute and back */

  ghost predicate Stores(axes: seq<AxisAttr>, shape: seq<int>, dims: seq<int>) {
    && |axes| == |shape|
    && forall d :: 0 <= d < |axes| ==>
         && axes[d].shardShape == shape[d] && Ascending(axes[d].axes)
         && forall j: nat :: j in axes[d].axes <==> j < |dims| && dims[j] == d
  }

  function Resized(s: seq<int>, n: nat, x: int): (r: seq<int>)
    ensures |r| == n && forall i :: 0 <= i < n ==> r[i] == if i < |s| then s[i] else x
  {
    seq(n, (i: nat) requires i < n => if i < |s| then s[i] else x)
  }

  // What an object holds for a mesh dimension before the attribute is read.
  function Stale(dims: seq<int>, j: nat): int {
    if j < |dims| then dims[j] else -1
  }

  // The last tensor dimension whose axes name a mesh dimension.
  function LastDim(axes: seq<AxisAttr>, j: nat, otherwise: int): int {
    if axes == [] then otherwise
    else if j in axes[|axes| - 1].axes then |axes| - 1
    else LastDim(axes[..|axes| - 1], j, otherwise)
  }

  // What an object that held some dimensions reads: the last dimension whose axes name a mesh
  // dimension, and what it held when none does.
  lemma LastDimMeans(axes: seq<AxisAttr>, held: seq<int>)
    ensures forall j: nat :: (forall d :: 0 <= d < |axes| ==> j !in axes[d].axes) ==>
      LastDim(axes, j, Stale(held, j)) == if j < |held| then held[j] else -1
    ensures forall j: nat, d :: 0 <= d < |axes| && j in axes[d].axes && (forall e :: d < e < |axes| ==> j !in axes[e].axes) ==>
      LastDim(axes, j, Stale(held, j)) == d
  {
    hide LastDim;
    forall j: nat | forall d :: 0 <= d < |axes| ==> j !in axes[d].axes
      ensures LastDim(axes, j, Stale(held, j)) == if j < |held| then held[j] else -1
    {
      LastDimNone(axes, j, Stale(held, j));
    }
    forall j: nat, d | 0 <= d < |axes| && j in axes[d].axes && forall e :: d < e < |axes| ==> j !in axes[e].axes
      ensures LastDim(axes, j, Stale(held, j)) == d
    {
      LastDimAt(axes, j, Stale(held, j), d);
    }
  }

  lemma {:induction false} LastDimNone(axes: seq<AxisAttr>, j: nat, otherwise: int)
    requires forall d :: 0 <= d < |axes| ==> j !in axes[d].axes
    ensures LastDim(axes, j, otherwise) == otherwise
  {
    if axes != [] {
      LastDimNone(axes[..|axes| - 1], j, otherwise);
    }
  }

  lemma {:induction false} LastDimAt(axes: seq<AxisAttr>, j: nat, otherwise: int, d: nat)
    requires d < |axes| && j in axes[d].axes && forall e :: d < e < |axes| ==> j !in axes[e].axes
    ensures LastDim(axes, j, otherwise) == d
  {
    if d < |axes| - 1 {
      LastDimAt(axes[..|axes| - 1], j, otherwise, d);
    }
  }

  lemma {:induction false} LastDimIs(axes: seq<AxisAttr>, shape: seq<int>, dims: seq<int>, j: nat, otherwise: int, n: nat)
    requires Stores(axes, shape, dims) && j < |dims| && n <= |axes|
    ensures LastDim(axes[..n], j, otherwise) == if 0 <= dims[j] < n then dims[j] else otherwise
  {
    if n > 0 {
      assert axes[..n][..n - 1] == axes[..n - 1];
      LastDimIs(axes, shape, dims, j, otherwise, n - 1);
    }
  }

  // Reading the attribute of a sharding over devices back gives every assigned mesh dimension, and
  // what the object held before for the others.
  lemma StoredIsRead(axes: seq<AxisAttr>, shape: seq<int>, dims: seq<int>, held: seq<int>, read: seq<int>)
    requires Stores(axes, shape, dims) && |read| == |dims| && forall j :: 0 <= j < |dims| ==> dims[j] < |shape|
    requires forall j: nat :: j < |dims| ==> read[j] == LastDim(axes, j, Stale(held, j))
    ensures seq(|axes|, (d: nat) requires d < |axes| => axes[d].shardShape) == shape
    ensures forall j: nat :: j < |dims| ==> read[j] == if dims[j] >= 0 then dims[j] else Stale(held, j)
    ensures read == dims <==> forall j :: 0 <= j < |dims| && dims[j] < 0 ==> Stale(held, j) == dims[j]
  {
    assert axes[..|axes|] == axes;
    forall j: nat | j < |dims|
      ensures read[j] == if dims[j] >= 0 then dims[j] else Stale(held, j)
    {
      LastDimIs(axes, shape, dims, j, Stale(held, j), |axes|);
    }
    if forall j :: 0 <= j < |dims| && dims[j] < 0 ==> Stale(held, j) == dims[j] {
      assert read == dims;
    }
  }

  // What an object held before is right for every mesh dimension the stored sharding leaves open:
  // those it does not assign, or all when it is not over devices.
  predicate HeldIsRight(shardType: ShardType, dims: seq<int>, held: seq<int>, n: nat) {
    |dims| == n && forall j :: 0 <= j < n ==> (shardType == Devices && dims[j] >= 0) || Stale(held, j) == dims[j]
  }

  // Stores one object's sharding in an attribute and reads it into another. The type comes back iff
  // it was Devices, the shape iff the type was Devices or there was none, the dimensions iff what the
  // reading object held was right; and all three iff it was Devices and that was right.
  method AttributeRoundTrip(a: MeshShardingInfo, b: MeshShardingInfo, mesh: seq<int>, direction: ShardDirection) returns (stored: bool)
    requires a != b
    requires a.shardType == Devices ==> |a.shardDims| == |mesh| && forall j :: 0 <= j < |a.shardDims| ==> a.shardDims[j] < |a.shardShape|
    modifies b
    ensures stored <==> a.meshShape != []
    ensures !stored ==> unchanged(b)
    ensures stored ==> (b.shardType == a.shardType <==> a.shardType == Devices)
    ensures stored ==> (b.shardShape == a.shardShape <==> a.shardType == Devices || a.shardShape == [])
    ensures stored ==> (b.shardDims == a.shardDims <==> HeldIsRight(a.shardType, a.shardDims, old(b.shardDims), |mesh|))
    ensures stored ==> b.meshName == a.meshName && b.meshShape == mesh && b.shardDirection == direction
  {
    var attr := a.GetTensorMeshShardingAttr();
    if attr.None? {
      return false;
    }
    var axes := attr.value.axes;
    ghost var held := b.shardDims;
    AxesAreOfMesh(a.shardType, axes, a.shardShape, a.shardDims, |mesh|);
    b.ExtractMeshSharding(attr.value.meshName, mesh, axes, direction);
    if a.shardType == Devices {
      StoredIsRead(axes, a.shardShape, a.shardDims, held, b.shardDims);
    }
    stored := true;
  }

  lemma AxesAreOfMesh(shardType: ShardType, axes: seq<AxisAttr>, shape: seq<int>, dims: seq<int>, n: nat)
    requires if shardType == Devices then Stores(axes, shape, dims) && |dims| == n else axes == []
    ensures forall d, j :: 0 <= d < |axes| && j in axes[d].axes ==> j < n
  {}

  // A new object reads back exactly the shardings over devices whose open mesh dimensions are -1.
  method FreshRoundTrip(a: MeshShardingInfo, mesh: seq<int>, direction: ShardDirection) returns (b: MeshShardingInfo)
    requires a.meshShape != [] && (a.shardType == Devices ==> |a.shardDims| == |mesh|)
    requires a.shardType == Devices ==> forall j :: 0 <= j < |a.shardDims| ==> a.shardDims[j] < |a.shardShape|
    ensures fresh(b)
    ensures (b.shardType == a.shardType && b.shardShape == a.shardShape && b.shardDims == a.shardDims)
        <==> a.shardType == Devices && forall j :: 0 <= j < |a.shardDims| ==> a.shardDims[j] >= -1
  {
    b := new MeshShardingInfo();
    var stored := AttributeRoundTrip(a, b, mesh, direction);
  }

  // A replicated sharding comes back as one over devices without dimensions.
  method ReplicationIsLost(a: MeshShardingInfo, mesh: seq<int>) returns (b: MeshShardingInfo)
    requires a.shardType == Replicate && a.shardShape == [1] && a.shardDims == [-1] && a.meshShape != [] && |mesh| == 2
    ensures fresh(b) && b.shardType == Devices && b.shardShape == [] && b.shardDims == [-1, -1]
  {
    b := new MeshShardingInfo();
    var attr := a.GetTensorMeshShardingAttr();
    b.ExtractMeshSharding(attr.value.meshName, mesh, attr.value.axes, ShardToFull);
  }

  // An object that was used before does not: the mesh dimension left alone keeps its old assignment.
  method StaleDimensionSurvives(a: MeshShardingInfo, b: MeshShardingInfo, mesh: seq<int>)
    requires a != b && a.meshShape != [] && |mesh| == 2
    requires a.shardType == Devices && a.shardShape == [4, 1] && a.shardDims == [-1, 0] && b.shardDims == [1, 0]
    modifies b
    ensures b.shardType == Devices && b.shardShape == [4, 1] && b.shardDims == [1, 0]
  {
    var attr := a.GetTensorMeshShardingAttr();
    var axes := attr.value.axes;
    AxesAreOfMesh(Devices, axes, a.shardShape, a.shardDims, |mesh|);
    b.ExtractMeshSharding(attr.value.meshName, mesh, axes, ShardToFull);
    StoredIsRead(axes, a.shardShape, a.shardDims, [1, 0], b.shardDims);
  }
}
