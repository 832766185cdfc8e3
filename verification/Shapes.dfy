/** Row-major indexing of shapes: the arithmetic under every reshape, permute and
    matmul of the tensor rewrites, and the loops of `include/ttmlir/Utils.h` that walk it. */
module Shapes {

  // Number of elements of a tensor of shape `s`.
  function Prod(s: seq<nat>): nat {
    if s == [] then 1 else s[0] * Prod(s[1..])
  }

  predicate InShape(idx: seq<nat>, shape: seq<nat>) {
    |idx| == |shape| && forall i :: 0 <= i < |shape| ==> idx[i] < shape[i]
  }

  lemma MulAssoc(a: int, b: int, c: int)
    ensures a * (b * c) == (a * b) * c
  {}

  lemma MulDist(a: int, b: int, c: int)
    ensures (a + b) * c == a * c + b * c
  {}

  lemma MixedRadixBound(hi: nat, lo: nat, n: nat, p: nat)
    requires hi < n && lo < p
    ensures hi * p + lo < n * p
  {
    assert (hi + 1) * p <= n * p;
  }

  lemma MixedRadixUnique(h1: nat, l1: nat, h2: nat, l2: nat, p: nat)
    requires l1 < p && l2 < p && h1 * p + l1 == h2 * p + l2
    ensures h1 == h2 && l1 == l2
  {
    assert h1 < h2 ==> (h1 + 1) * p <= h2 * p;
    assert h2 < h1 ==> (h2 + 1) * p <= h1 * p;
  }

  lemma MulCancelLess(a: nat, b: nat, p: nat)
    requires a * p < b * p
    ensures a < b
  {
    assert a >= b ==> a * p >= b * p;
  }

  function Quot(k: nat, p: nat): nat
    requires p > 0
  {
    k / p
  }

  function Rem(k: nat, p: nat): nat
    requires p > 0
  {
    k % p
  }

  lemma MixedRadixSplit(k: nat, n: nat, p: nat)
    requires k < n * p
    ensures p > 0 && Quot(k, p) < n && Rem(k, p) < p && Quot(k, p) * p + Rem(k, p) == k
  {
    MulCancelLess(k / p, n, p);
  }

  // Row-major position of a multi-index.
  function Lin(shape: seq<nat>, idx: seq<nat>): (k: nat)
    requires InShape(idx, shape)
    ensures k < Prod(shape)
  {
    if shape == [] then 0
    else
      var lo := Lin(shape[1..], idx[1..]);
      MixedRadixBound(idx[0], lo, shape[0], Prod(shape[1..]));
      idx[0] * Prod(shape[1..]) + lo
  }

  lemma LinCons(shape: seq<nat>, i: nat, rest: seq<nat>)
    requires shape != [] && i < shape[0] && InShape(rest, shape[1..])
    ensures InShape([i] + rest, shape)
    ensures Lin(shape, [i] + rest) == i * Prod(shape[1..]) + Lin(shape[1..], rest)
  {
    assert ([i] + rest)[1..] == rest;
  }

  // The multi-index at a row-major position.
  function Delin(shape: seq<nat>, k: nat): (idx: seq<nat>)
    requires k < Prod(shape)
    ensures InShape(idx, shape)
    ensures Lin(shape, idx) == k
  {
    if shape == [] then []
    else
      MixedRadixSplit(k, shape[0], Prod(shape[1..]));
      hide Quot, Rem, Lin;
      var rest := Delin(shape[1..], Rem(k, Prod(shape[1..])));
      LinCons(shape, Quot(k, Prod(shape[1..])), rest);
      [Quot(k, Prod(shape[1..]))] + rest
  }

  lemma {:induction false} LinInjective(shape: seq<nat>, a: seq<nat>, b: seq<nat>)
    requires InShape(a, shape) && InShape(b, shape) && Lin(shape, a) == Lin(shape, b)
    ensures a == b
  {
    if shape != [] {
      MixedRadixUnique(a[0], Lin(shape[1..], a[1..]), b[0], Lin(shape[1..], b[1..]), Prod(shape[1..]));
      LinInjective(shape[1..], a[1..], b[1..]);
      assert a == [a[0]] + a[1..] && b == [b[0]] + b[1..];
    }
  }

  lemma DelinLin(shape: seq<nat>, idx: seq<nat>)
    requires InShape(idx, shape)
    ensures Delin(shape, Lin(shape, idx)) == idx
  {
    LinInjective(shape, Delin(shape, Lin(shape, idx)), idx);
  }

  lemma ProdEmpty()
    ensures Prod([]) == 1
  {}

  lemma ProdCons(n: nat, s: seq<nat>)
    ensures Prod([n] + s) == n * Prod(s)
  {
    assert ([n] + s)[1..] == s;
  }

  lemma {:induction false} ProdConcat(s: seq<nat>, t: seq<nat>)
    ensures Prod(s + t) == Prod(s) * Prod(t)
  {
    if s == [] {
      assert s + t == t;
    } else {
      assert s + t == [s[0]] + (s[1..] + t);
      ProdCons(s[0], s[1..] + t);
      ProdConcat(s[1..], t);
      MulAssoc(s[0], Prod(s[1..]), Prod(t));
    }
  }

  lemma InShapeConcat(s: seq<nat>, i: seq<nat>, t: seq<nat>, j: seq<nat>)
    requires InShape(i, s) && InShape(j, t)
    ensures InShape(i + j, s + t)
  {}

  lemma InShapeSplit(s: seq<nat>, t: seq<nat>, idx: seq<nat>)
    requires InShape(idx, s + t)
    ensures InShape(idx[..|s|], s) && InShape(idx[|s|..], t)
    ensures idx == idx[..|s|] + idx[|s|..]
  {
    forall i | 0 <= i < |t|
      ensures idx[|s|..][i] < t[i]
    {
      assert (s + t)[|s| + i] == t[i];
    }
    forall i | 0 <= i < |s|
      ensures idx[..|s|][i] < s[i]
    {
      assert (s + t)[i] == s[i];
    }
  }

  // Linearising a concatenated index is mixed-radix arithmetic on the two halves.
  lemma {:induction false} LinConcat(s: seq<nat>, i: seq<nat>, t: seq<nat>, j: seq<nat>)
    requires InShape(i, s) && InShape(j, t)
    ensures InShape(i + j, s + t)
    ensures Lin(s + t, i + j) == Lin(s, i) * Prod(t) + Lin(t, j)
  {
    if s == [] {
      assert s + t == t && i + j == j;
    } else {
      assert (s + t)[1..] == s[1..] + t && (i + j)[1..] == i[1..] + j;
      LinConcat(s[1..], i[1..], t, j);
      LinCons(s + t, i[0], i[1..] + j);
      LinCons(s, i[0], i[1..]);
      assert [i[0]] + (i[1..] + j) == i + j && [i[0]] + i[1..] == i;
      hide Prod, Lin, InShape;
      var p, q, lo := Prod(s[1..]), Prod(t), Lin(s[1..], i[1..]);
      ProdConcat(s[1..], t);
      MulAssoc(i[0], p, q);
      MulDist(i[0] * p, lo, q);
    }
  }

  lemma ProdOne(n: nat)
    ensures Prod([n]) == n
  {
    assert Prod([n]) == n * Prod([n][1..]);
  }

  lemma LinOne(n: nat, k: nat)
    requires k < n
    ensures InShape([k], [n]) && Lin([n], [k]) == k
  {
    assert Lin([n], [k]) == k * Prod([n][1..]) + Lin([n][1..], [k][1..]);
  }

  lemma ProdAppend(s: seq<nat>, n: nat)
    ensures Prod(s + [n]) == Prod(s) * n
  {
    ProdOne(n);
    ProdConcat(s, [n]);
  }

  lemma LinAppend(s: seq<nat>, i: seq<nat>, n: nat, k: nat)
    requires InShape(i, s) && k < n
    ensures InShape(i + [k], s + [n]) && Lin(s + [n], i + [k]) == Lin(s, i) * n + k
  {
    LinOne(n, k);
    ProdOne(n);
    LinConcat(s, i, [n], [k]);
  }

  lemma {:induction false} ProdZero(s: seq<nat>)
    ensures Prod(s) == 0 <==> 0 in s
  {
    if s != [] {
      ProdZero(s[1..]);
      assert s == [s[0]] + s[1..];
      if s[0] > 0 && Prod(s[1..]) > 0 {
        assert s[0] * Prod(s[1..]) > 0;
      }
    }
  }

  lemma IndexedIsNonEmpty(shape: seq<nat>, idx: seq<nat>)
    ensures InShape(idx, shape) ==> Prod(shape) > 0
  {
    if InShape(idx, shape) {
      var k := Lin(shape, idx);
    }
  }

  // `calculateStrides` with element size 1.
  method CalculateStrides(shape: seq<nat>) returns (strides: seq<nat>)
    requires shape != []
    ensures |strides| == |shape|
    ensures forall i :: 0 <= i < |shape| ==> strides[i] == Prod(shape[i + 1..])
  {
    var a := new nat[|shape|];
    var stride := 1;
    var i := |shape|;
    while i > 0
      invariant 0 <= i <= |shape|
      invariant stride == Prod(shape[i..])
      invariant forall j :: i <= j < |shape| ==> a[j] == Prod(shape[j + 1..])
    {
      i := i - 1;
      a[i] := stride;
      assert shape[i..][1..] == shape[i + 1..];
      stride := stride * shape[i];
    }
    strides := a[..];
  }

  lemma DelinHead(shape: seq<nat>, k: nat)
    requires k < Prod(shape) && shape != []
    ensures Prod(shape[1..]) > 0 && Rem(k, Prod(shape[1..])) < Prod(shape[1..])
    ensures Quot(k, Prod(shape[1..])) < shape[0]
    ensures Delin(shape, k) == [Quot(k, Prod(shape[1..]))] + Delin(shape[1..], Rem(k, Prod(shape[1..])))
  {
    MixedRadixSplit(k, shape[0], Prod(shape[1..]));
  }

  // The digit the sampling loop computes for dimension `j` is the one of `Delin`.
  lemma {:induction false} DigitOfDelin(shape: seq<nat>, k: nat, j: nat)
    requires k < Prod(shape) && j < |shape|
    ensures Prod(shape[j + 1..]) > 0 && shape[j] > 0
    ensures Delin(shape, k)[j] == Rem(Quot(k, Prod(shape[j + 1..])), shape[j])
    decreases shape, 1
  {
    hide Lin, Delin;
    DelinHead(shape, k);
    if j == 0 {
      SmallRem(Quot(k, Prod(shape[1..])), shape[0]);
    } else {
      hide Prod, Quot, Rem;
      DigitOfDelinTail(shape, k, j, Rem(k, Prod(shape[1..])));
    }
  }

  lemma SmallRem(a: nat, n: nat)
    requires a < n
    ensures Rem(a, n) == a
  {}

  lemma {:induction false} DigitOfDelinTail(shape: seq<nat>, k: nat, j: nat, low: nat)
    requires k < Prod(shape) && 0 < j < |shape|
    requires Prod(shape[1..]) > 0 && low == Rem(k, Prod(shape[1..])) && low < Prod(shape[1..])
    ensures Prod(shape[j + 1..]) > 0 && shape[j] > 0
    ensures Delin(shape[1..], low)[j - 1] == Rem(Quot(k, Prod(shape[j + 1..])), shape[j])
    decreases shape, 0
  {
    hide Prod, Lin, Delin, Quot, Rem;
    var tail := shape[1..];
    DigitOfDelin(tail, low, j - 1);
    assert tail[j - 1 + 1..] == shape[j + 1..] && tail[j - 1] == shape[j];
    ProdAround(tail, j - 1);
    DropHighDigits(k, Prod(tail[..j - 1]), shape[j], Prod(shape[j + 1..]), Prod(tail));
  }

  lemma ProdAround(s: seq<nat>, j: nat)
    requires j < |s|
    ensures Prod(s) == Prod(s[..j]) * (s[j] * Prod(s[j + 1..]))
    ensures Prod(s) > 0 ==> Prod(s[..j]) > 0
  {
    var rest := [s[j]] + s[j + 1..];
    assert s == s[..j] + rest;
    ProdCons(s[j], s[j + 1..]);
    hide Prod;
    ProdConcat(s[..j], rest);
  }

  lemma MulPositive(a: nat, b: nat)
    requires a > 0 && b > 0
    ensures a * b > 0
  {}

  // (k mod u*n*q) / q mod n == k / q mod n.
  lemma DropHighDigits(k: nat, u: nat, n: nat, q: nat, m: nat)
    requires n > 0 && q > 0 && m > 0 && m == u * (n * q)
    ensures Rem(Quot(Rem(k, m), q), n) == Rem(Quot(k, q), n)
  {
    var h, r := k / m, k % m;
    MulAssoc(h, u, n * q);
    MulAssoc(h * u, n, q);
    HighDigitsShift(k, h * u, r, n, q);
  }

  lemma HighDigitsShift(k: nat, c: nat, r: nat, n: nat, q: nat)
    requires n > 0 && q > 0 && k == (c * n) * q + r
    ensures (r / q) % n == (k / q) % n
  {
    ShiftedByMultiple(c * n, r, q);
    ShiftedByMultiple(c, r / q, n);
  }

  lemma DivModUnique(a: nat, n: nat, q: nat, m: nat)
    requires m < n && a == q * n + m
    ensures a / n == q && a % n == m
  {
    MixedRadixUnique(a / n, a % n, q, m, n);
  }

  lemma ShiftedByMultiple(t: nat, r: nat, n: nat)
    requires n > 0
    ensures (t * n + r) / n == t + r / n && (t * n + r) % n == r % n
  {
    var q, m := r / n, r % n;
    MulDist(t, q, n);
    DivModUnique(t * n + r, n, t + q, m);
  }

  // The inner loop of `sample`: the multi-index at position `i`.
  method SampleIndex(shape: seq<nat>, strides: seq<nat>, i: nat) returns (index: seq<nat>)
    requires i < Prod(shape) && |strides| == |shape|
    requires forall j :: 0 <= j < |shape| ==> strides[j] == Prod(shape[j + 1..])
    ensures index == Delin(shape, i)
  {
    hide Lin, Prod, Delin;
    index := [];
    for j := 0 to |shape|
      invariant |index| == j
      invariant forall d :: 0 <= d < j ==> index[d] == Delin(shape, i)[d]
    {
      DigitOfDelin(shape, i, j);
      index := index + [(i / strides[j]) % shape[j]];
    }
  }

  // `sample`: the indices the callback receives, in call order. Every multi-index of the
  // shape occurs once, in row-major order (see SampleVisitsEachOnce).
  method Sample(shape: seq<nat>) returns (visited: seq<seq<nat>>)
    ensures shape == [] ==> visited == []
    ensures shape != [] ==> |visited| == Prod(shape) && forall k :: 0 <= k < |visited| ==> visited[k] == Delin(shape, k)
  {
    visited := [];
    if shape == [] {
      return;
    }
    hide Lin, Delin;
    var strides: seq<nat> := CalculateStrides(shape);
    var volume := shape[0] * strides[0];
    assert volume == Prod(shape);
    hide Prod;
    for i := 0 to volume
      invariant |visited| == i
      invariant forall k :: 0 <= k < i ==> k < Prod(shape) && visited[k] == Delin(shape, k)
    {
      var index := SampleIndex(shape, strides, i);
      visited := visited + [index];
    }
  }

  lemma SampleVisitsEachOnce(shape: seq<nat>, visited: seq<seq<nat>>)
    requires |visited| == Prod(shape) && forall k :: 0 <= k < |visited| ==> visited[k] == Delin(shape, k)
    ensures forall idx :: InShape(idx, shape) <==> idx in visited
    ensures forall i, j :: 0 <= i < j < |visited| ==> visited[i] != visited[j]
  {
    forall idx | InShape(idx, shape)
      ensures idx in visited
    {
      DelinLin(shape, idx);
      assert visited[Lin(shape, idx)] == idx;
    }
    forall i, j | 0 <= i < j < |visited|
      ensures visited[i] != visited[j]
    {
      assert Lin(shape, visited[i]) == i && Lin(shape, visited[j]) == j;
    }
  }

  lemma SplitAround(s: seq<nat>, v: nat)
    requires v < |s|
    ensures s == s[..v] + [s[v]] + s[v + 1..]
  {}

  lemma UnitDimProd(s: seq<nat>, t: seq<nat>)
    ensures Prod(s + [1] + t) == Prod(s + t)
  {
    hide Prod;
    ProdAppend(s, 1);
    ProdConcat(s, t);
    ProdConcat(s + [1], t);
  }

  // A dimension of size 1 does not move any element.
  lemma UnitDimLin(s: seq<nat>, i: seq<nat>, t: seq<nat>, j: seq<nat>)
    requires InShape(i, s) && InShape(j, t)
    ensures InShape(i + [0] + j, s + [1] + t) && InShape(i + j, s + t)
    ensures Lin(s + [1] + t, i + [0] + j) == Lin(s + t, i + j)
  {
    hide Prod, Lin;
    LinAppend(s, i, 1, 0);
    LinConcat(s, i, t, j);
    LinConcat(s + [1], i + [0], t, j);
  }
}
