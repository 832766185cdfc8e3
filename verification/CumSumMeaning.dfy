/**
 * Which of the windows the cumsum matcher accepts really are prefix sums. The all-ones checks let
 * values through that are 1 only modulo 2^32; what such a value does is settled dimension by dimension.
 */
module CumSumMeaning {
  import opened Shapes
  import opened Tensors
  import opened Wrappers
  import opened CumSum

  /* One dimension */

  // The size and the window attributes of one dimension without padding above.
  datatype Axis = Axis(size: nat, window: int, stride: int, base: int, dilation: int, low: int)

  predicate IsAxis(a: Axis) {
    a.window >= 1 && a.stride >= 1 && a.base >= 1 && a.dilation >= 1
  }

  function AxisOf(shape: seq<nat>, w: Window, d: nat): (a: Axis)
    requires WellFormed(shape, w) && d < |shape|
    ensures IsAxis(a)
  {
    Axis(shape[d], w.dims[d], OrOnes(w.strides, |shape|)[d], OrOnes(w.baseDilations, |shape|)[d],
         OrOnes(w.windowDilations, |shape|)[d], w.padding[2 * d])
  }

  // How far the last window can move, counted from the first element.
  function Room(a: Axis): int {
    a.low + (a.size - 1) * a.base - (a.window - 1) * a.dilation
  }

  // The result has as many elements as the operand.
  predicate KeepsSize(a: Axis) {
    a.size == 0 || (a.size - 1) * a.stride <= Room(a) < a.size * a.stride
  }

  // Each result element is the operand element of its index: the windows have one element, or step
  // through the dilated operand so that each meets exactly its own.
  predicate KeepsElements(a: Axis)
    requires IsAxis(a)
  {
    if a.size == 1 then a.window == 1
    else
      && a.base >= a.stride
      && (a.window - 1) * a.dilation == (a.size - 1) * (a.base - a.stride)
      && (a.base - a.stride) % a.dilation == 0
      && forall k: nat :: 1 <= k < a.size && Divides(a.dilation, k * a.base) ==> k * a.base > (a.size - 1) * (a.base - a.stride)
  }

  predicate Divides(n: int, x: int)
    requires n >= 1
  {
    x % n == 0
  }

  predicate UnitAxis(a: Axis) {
    a.stride == 1 && a.base == 1 && a.dilation == 1
  }

  // What a caller has to check of an accepted window: an empty operand keeps its shape; otherwise the
  // dimension summed over has no strides or dilations, and every other keeps its elements.
  predicate KeepsSums(shape: seq<nat>, w: Window, dim: nat)
    requires WellFormed(shape, w)
  {
    if 0 in shape then forall d :: 0 <= d < |shape| ==> KeepsSize(AxisOf(shape, w, d))
    else forall d :: 0 <= d < |shape| ==>
      if d == dim && shape[d] > 1 then UnitAxis(AxisOf(shape, w, d)) else KeepsElements(AxisOf(shape, w, d))
  }

  // The windows the matcher accepts: low padding of the size minus one on the dimension it returns,
  // and none elsewhere; a dimension of several elements is spanned by its window, alone.
  predicate HasForm(shape: seq<nat>, w: Window, dim: nat) {
    && WellFormed(shape, w) && dim < |shape| && shape[dim] >= 1
    && (forall d :: 0 <= d < |shape| ==> w.padding[2 * d + 1] == 0 && w.padding[2 * d] == if d == dim then shape[dim] - 1 else 0)
    && (shape[dim] > 1 ==> forall d :: 0 <= d < |shape| ==> w.dims[d] == if d == dim then shape[dim] else 1)
  }

  lemma AcceptedHasForm(shape: seq<nat>, w: Window, dim: nat)
    requires Accepts(shape, w, dim)
    ensures HasForm(shape, w, dim)
  {
    if AllEqual(w.padding) {
      assert shape[dim] == 1;
      assert w.padding[0] == 0 && forall i :: 0 <= i < |w.padding| ==> w.padding[i] == w.padding[0];
    } else {
      var d: nat :| SpansDim(shape, w, d) && d == dim;
    }
  }

  /* Arithmetic */

  lemma QuotientIs(x: int, n: int, q: int)
    requires n >= 1
    ensures x / n == q <==> q * n <= x < q * n + n
  {
    var r := x / n;
    assert x == r * n + x % n;
    MulDist(r, 1, n);
    MulDist(q, 1, n);
    if r < q {
      AtMostTimes(r + 1, q, n);
    } else if q < r {
      AtMostTimes(q + 1, r, n);
    }
  }

  lemma SizeIsKept(a: Axis)
    requires IsAxis(a) && a.low >= 0 && (a.size == 0 ==> a.low == 0)
    ensures ResultDim(a.size, a.window, a.stride, a.base, a.dilation, a.low, 0) == a.size <==> KeepsSize(a)
  {
    if a.size >= 1 {
      SizeOfRoom(a.size - 1, a.low, (a.size - 1) * a.base, (a.window - 1) * a.dilation, a.stride);
      AtMostTimes(0, a.size - 1, a.base);
      AtMostTimes(0, a.window - 1, a.dilation);
      MulDist(a.size - 1, 1, a.stride);
    }
  }

  // How often a window of a given extent fits into the padded operand, against the number of elements.
  lemma SizeOfRoom(n: nat, low: nat, dilated: int, extent: int, stride: int)
    requires stride >= 1
    ensures var room := low + dilated - extent;
      (room >= 0 && room / stride == n) <==> n * stride <= room < n * stride + stride
  {
    AtMostTimes(0, n, stride);
    QuotientIs(low + dilated - extent, stride, n);
  }

  // A cell reads element e iff it is at the dilated position of e.
  function CellReads(a: Axis, i: nat, c: nat): int
    requires IsAxis(a)
  {
    Coordinate(i * a.stride + c * a.dilation, a.low, a.base)
  }

  lemma CellReadsIs(a: Axis, i: nat, c: nat, e: nat)
    requires IsAxis(a)
    ensures CellReads(a, i, c) == e <==> i * a.stride + c * a.dilation - a.low == e * a.base
  {
    var q := i * a.stride + c * a.dilation - a.low;
    assert e * a.base >= 0;
    if q == e * a.base {
      DivModUnique(q, a.base, e, 0);
    } else if q >= 0 && q % a.base == 0 {
      assert q == (q / a.base) * a.base;
    }
  }

  ghost predicate IsRead(a: Axis, i: nat, e: nat)
    requires IsAxis(a)
  {
    exists c: nat :: c < a.window && CellReads(a, i, c) == e
  }

  // An axis on which some cell of each window reads the window's own element.
  ghost predicate OwnRead(a: Axis)
    requires IsAxis(a)
  {
    forall i: nat :: i < a.size ==> IsRead(a, i, i)
  }

  // No element is in the first window but the first.
  ghost predicate FirstReadsFirst(a: Axis)
    requires IsAxis(a)
  {
    forall e: nat :: 1 <= e < a.size ==> !IsRead(a, 0, e)
  }

  lemma OwnCell(a: Axis, i: nat) returns (c: nat)
    requires IsAxis(a) && a.low == 0 && OwnRead(a) && i < a.size
    ensures c < a.window && c * a.dilation == i * (a.base - a.stride)
  {
    assert IsRead(a, i, i);
    c :| c < a.window && CellReads(a, i, c) == i;
    CellReadsIs(a, i, c, i);
    assert i * (a.base - a.stride) == i * a.base - i * a.stride;
  }

  lemma AtMostTimes(a: int, b: int, n: int)
    requires a <= b && n >= 0
    ensures a * n <= b * n
  {}

  // Keeping the size and each element is necessary.
  lemma ElementsAreKept(a: Axis)
    requires IsAxis(a) && a.low == 0 && a.size >= 1 && KeepsSize(a) && OwnRead(a) && FirstReadsFirst(a)
    ensures KeepsElements(a)
  {
    hide OwnRead, FirstReadsFirst;
    var n := a.size - 1;
    var t := a.base - a.stride;
    if n == 0 {
      assert (a.window - 1) * a.dilation <= 0;
      if a.window > 1 {
        AtMostTimes(1, a.window - 1, a.dilation);
      }
    } else {
      var first := OwnCell(a, 1);
      var last := OwnCell(a, n);
      MultipleDivides(first, a.dilation);
      assert first * a.dilation >= 0;
      AtMostTimes(last, a.window - 1, a.dilation);
      assert n * t == n * a.base - n * a.stride;
      forall k: nat | 1 <= k < a.size && Divides(a.dilation, k * a.base)
        ensures k * a.base > n * t
      {
        if k * a.base <= n * t {
          FarCell(a, k, n * t);
        }
      }
    }
  }

  lemma MultipleDivides(k: nat, n: int)
    requires n >= 1
    ensures (k * n) % n == 0 && (k * n) / n == k
  {
    DivModUnique(k * n, n, k, 0);
  }

  lemma FarCell(a: Axis, k: nat, far: int)
    requires IsAxis(a) && a.low == 0 && 1 <= k < a.size && Divides(a.dilation, k * a.base)
    requires k * a.base <= far == (a.window - 1) * a.dilation
    ensures !FirstReadsFirst(a)
  {
    assert k * a.base >= 0;
    var c := k * a.base / a.dilation;
    assert c * a.dilation == k * a.base;
    assert a.window * a.dilation == (a.window - 1) * a.dilation + a.dilation;
    if c > a.window - 1 {
      AtMostTimes(a.window, c, a.dilation);
    }
    CellReadsIs(a, 0, c, k);
    assert IsRead(a, 0, k);
  }

  // The cell that reads a window's own element.
  function OwnIndex(a: Axis, i: nat): int
    requires IsAxis(a)
  {
    if a.size == 1 then 0 else i * ((a.base - a.stride) / a.dilation)
  }

  lemma OwnIndexReads(a: Axis, i: nat)
    requires IsAxis(a) && a.low == 0 && i < a.size && KeepsElements(a)
    ensures 0 <= OwnIndex(a, i) < a.window && CellReads(a, i, OwnIndex(a, i)) == i
  {
    if a.size == 1 {
      CellReadsIs(a, 0, 0, 0);
    } else {
      var n, t, m := a.size - 1, a.base - a.stride, (a.base - a.stride) / a.dilation;
      assert t == m * a.dilation;
      MulAssoc(n, m, a.dilation);
      MulAssoc(i, m, a.dilation);
      SameFactor(a.window - 1, n * m, a.dilation);
      AtMostTimes(i, n, m);
      assert i * m >= 0;
      assert i * a.stride + i * t == i * a.base;
      CellReadsIs(a, i, i * m, i);
    }
  }

  lemma SameFactor(a: int, b: int, n: int)
    requires n >= 1 && a * n == b * n
    ensures a == b
  {
    assert (a + 1) * n == a * n + n && (b + 1) * n == b * n + n;
    if a < b {
      AtMostTimes(a + 1, b, n);
    }
    if b < a {
      AtMostTimes(b + 1, a, n);
    }
  }

  // And it is the only cell of the window that reads an element.
  lemma OnlyOwnIndex(a: Axis, i: nat, c: nat)
    requires IsAxis(a) && a.low == 0 && i < a.size && KeepsElements(a)
    requires c < a.window && 0 <= CellReads(a, i, c) < a.size
    ensures c == OwnIndex(a, i)
  {
    var e: nat := CellReads(a, i, c);
    CellReadsIs(a, i, c, e);
    if a.size > 1 {
      OwnElement(a, i, c, e);
      var t, m := a.base - a.stride, (a.base - a.stride) / a.dilation;
      assert t == m * a.dilation;
      MulAssoc(i, m, a.dilation);
      assert i * t == i * a.base - i * a.stride;
      SameFactor(c, i * m, a.dilation);
    }
  }

  lemma OwnElement(a: Axis, i: nat, c: nat, e: nat)
    requires IsAxis(a) && a.low == 0 && i < a.size && KeepsElements(a) && a.size > 1
    requires c < a.window && e < a.size && i * a.stride + c * a.dilation == e * a.base
    ensures e == i
  {
    var n, t, m := a.size - 1, a.base - a.stride, (a.base - a.stride) / a.dilation;
    assert t == m * a.dilation;
    if e > i {
      AtMostTimes(c, a.window - 1, a.dilation);
      LaterElement(i, c, e, a.stride, a.base, a.dilation, m);
    } else if e < i {
      AtMostTimes(i, n, t);
      EarlierElement(i, c, e, a.stride, a.base, a.dilation, m);
    }
  }

  // A cell of window i that reads a later element reads it at a multiple of the dilation.
  lemma LaterElement(i: nat, c: nat, e: nat, stride: int, base: int, dilation: int, m: int)
    requires i < e && base >= 1 && dilation >= 1 && m >= 0 && base - stride == m * dilation
    requires i * stride + c * dilation == e * base
    ensures Divides(dilation, (e - i) * base) && (e - i) * base <= c * dilation
  {
    OwnDistance(i, stride, base, dilation, m);
    assert (e - i) * base == e * base - i * base;
    MulDist(c - i * m, i * m, dilation);
    AtMostTimes(0, e - i, base);
    assert i * m >= 0;
    AtMostTimes(0, i * m, dilation);
    ProductDivides(c - i * m, dilation, (e - i) * base);
  }

  lemma EarlierElement(i: nat, c: nat, e: nat, stride: int, base: int, dilation: int, m: int)
    requires e < i && base >= 1 && dilation >= 1 && m >= 0 && base - stride == m * dilation
    requires i * stride + c * dilation == e * base
    ensures Divides(dilation, (i - e) * base) && (i - e) * base <= i * (base - stride)
  {
    OwnDistance(i, stride, base, dilation, m);
    assert (i - e) * base == i * base - e * base;
    MulDist(i * m - c, c, dilation);
    AtMostTimes(0, i - e, base);
    AtMostTimes(0, c, dilation);
    ProductDivides(i * m - c, dilation, (i - e) * base);
  }

  lemma OwnDistance(i: nat, stride: int, base: int, dilation: int, m: int)
    requires base - stride == m * dilation
    ensures i * (base - stride) == i * base - i * stride == (i * m) * dilation
  {
    MulAssoc(i, m, dilation);
  }

  lemma ProductDivides(q: int, n: int, x: int)
    requires n >= 1 && x == q * n && x >= 0
    ensures Divides(n, x)
  {
    if q < 0 {
      AtMostTimes(q, -1, n);
    } else {
      MultipleDivides(q, n);
    }
  }

  lemma KeptElementsKeepSize(a: Axis)
    requires IsAxis(a) && a.low == 0 && a.size >= 1 && KeepsElements(a)
    ensures KeepsSize(a)
  {
    if a.size > 1 {
      var n := a.size - 1;
      assert n * (a.base - a.stride) == n * a.base - n * a.stride;
      assert a.size * a.stride == n * a.stride + a.stride;
    }
  }

  // The dimension summed over: its windows read the elements up to their own.
  ghost predicate ReadsUpTo(a: Axis)
    requires IsAxis(a)
  {
    forall i: nat, e: nat :: e <= i < a.size ==> IsRead(a, i, e)
  }

  lemma SpannedIsUnit(a: Axis)
    requires IsAxis(a) && a.size >= 2 && a.low == a.size - 1 && a.window == a.size
    requires KeepsSize(a) && ReadsUpTo(a)
    ensures UnitAxis(a)
  {
    hide ReadsUpTo, CellReads, KeepsSize;
    var n := a.size - 1;
    var x := FirstIsRead(a, n);
    var y := FirstIsRead(a, 0);
    var z := FirstIsRead(a, 1);
    SpanSteps(n, a.stride, a.dilation, x, y, z);
    SpanBase(a);
  }

  lemma FirstIsRead(a: Axis, i: nat) returns (c: nat)
    requires IsAxis(a) && ReadsUpTo(a) && i < a.size
    ensures i * a.stride + c * a.dilation == a.low
  {
    assert IsRead(a, i, 0);
    c :| c < a.window && CellReads(a, i, c) == 0;
    CellReadsIs(a, i, c, 0);
  }

  lemma SpanSteps(n: int, stride: int, dilation: int, x: nat, y: nat, z: nat)
    requires n >= 1 && stride >= 1 && dilation >= 1
    requires n * stride + x * dilation == n && 0 * stride + y * dilation == n && 1 * stride + z * dilation == n
    ensures stride == 1 && dilation == 1
  {
    assert x * dilation >= 0;
    if stride > 1 {
      AtMostTimes(2, stride, n);
    }
    assert (y - z) * dilation == y * dilation - z * dilation;
    OnlyOneDividesOne(y - z, dilation);
  }

  lemma SpanBase(a: Axis)
    requires IsAxis(a) && a.size >= 2 && a.low == a.size - 1 && a.window == a.size && KeepsSize(a)
    requires a.stride == 1 && a.dilation == 1
    ensures a.base == 1
  {
    if a.base > 1 {
      AtMostTimes(2, a.base, a.size - 1);
    }
  }

  lemma OnlyOneDividesOne(q: int, n: int)
    requires n >= 1 && q * n == 1
    ensures n == 1
  {
    if q <= 0 {
      AtMostTimes(q, 0, n);
    } else {
      AtMostTimes(1, q, n);
    }
  }

  /* Sums */

  lemma {:induction false} SumOneTerm(n: nat, f: nat -> int, k: nat)
    requires k < n && forall j: nat :: j < n && j != k ==> f(j) == 0
    ensures Sum(n, f) == f(k)
  {
    if k == n - 1 {
      SumZero(n - 1, f);
    } else {
      SumOneTerm(n - 1, f, k);
    }
  }

  lemma {:induction false} SumZero(n: nat, f: nat -> int)
    requires forall k: nat :: k < n ==> f(k) == 0
    ensures Sum(n, f) == 0
  {
    if n > 0 {
      SumZero(n - 1, f);
    }
  }

  lemma {:induction false} SumAtLeast(n: nat, f: nat -> int, k: nat)
    requires k < n && forall j: nat :: j < n ==> f(j) >= 0
    ensures Sum(n, f) >= f(k)
  {
    if k == n - 1 {
      SumNonNegative(n - 1, f);
    } else {
      SumAtLeast(n - 1, f, k);
    }
  }

  lemma {:induction false} SumNonNegative(n: nat, f: nat -> int)
    requires forall j: nat :: j < n ==> f(j) >= 0
    ensures Sum(n, f) >= 0
  {
    if n > 0 {
      SumNonNegative(n - 1, f);
    }
  }

  lemma TailInShape(shape: seq<nat>, i: nat, rest: seq<nat>)
    requires shape != [] && i < shape[0] && InShape(rest, shape[1..])
    ensures InShape([i] + rest, shape)
  {}

  lemma {:induction false} SumOverZero(shape: seq<nat>, f: seq<nat> -> int)
    requires forall x :: InShape(x, shape) ==> f(x) == 0
    ensures SumOver(shape, f) == 0
    decreases |shape|
  {
    if shape == [] {
      assert InShape([], shape);
    } else {
      var tail := shape[1..];
      forall i: nat | i < shape[0]
        ensures Inner(tail, f)(i) == 0
      {
        forall rest | InShape(rest, tail)
          ensures Fixing(i, f)(rest) == 0
        {
          TailInShape(shape, i, rest);
        }
        SumOverZero(tail, Fixing(i, f));
      }
      SumZero(shape[0], Inner(tail, f));
    }
  }

  // A sum with one term that is not zero.
  lemma {:induction false} SumOverOneTerm(shape: seq<nat>, f: seq<nat> -> int, c: seq<nat>)
    requires InShape(c, shape) && forall x :: InShape(x, shape) && x != c ==> f(x) == 0
    ensures SumOver(shape, f) == f(c)
    decreases |shape|
  {
    if shape == [] {
      assert c == [];
    } else {
      var tail := shape[1..];
      assert c == [c[0]] + c[1..];
      forall i: nat | i < shape[0] && i != c[0]
        ensures Inner(tail, f)(i) == 0
      {
        forall rest | InShape(rest, tail)
          ensures Fixing(i, f)(rest) == 0
        {
          TailInShape(shape, i, rest);
          assert ([i] + rest)[0] == i;
        }
        SumOverZero(tail, Fixing(i, f));
      }
      forall rest | InShape(rest, tail) && rest != c[1..]
        ensures Fixing(c[0], f)(rest) == 0
      {
        TailInShape(shape, c[0], rest);
        assert ([c[0]] + rest)[1..] == rest;
      }
      SumOverOneTerm(tail, Fixing(c[0], f), c[1..]);
      SumOneTerm(shape[0], Inner(tail, f), c[0]);
    }
  }

  lemma {:induction false} SumOverNonNegative(shape: seq<nat>, f: seq<nat> -> int)
    requires forall x :: InShape(x, shape) ==> f(x) >= 0
    ensures SumOver(shape, f) >= 0
    decreases |shape|
  {
    if shape == [] {
      assert InShape([], shape);
    } else {
      var tail := shape[1..];
      forall i: nat | i < shape[0]
        ensures Inner(tail, f)(i) >= 0
      {
        forall rest | InShape(rest, tail)
          ensures Fixing(i, f)(rest) >= 0
        {
          TailInShape(shape, i, rest);
        }
        SumOverNonNegative(tail, Fixing(i, f));
      }
      SumNonNegative(shape[0], Inner(tail, f));
    }
  }

  lemma {:induction false} SumOverAtLeast(shape: seq<nat>, f: seq<nat> -> int, c: seq<nat>)
    requires InShape(c, shape) && forall x :: InShape(x, shape) ==> f(x) >= 0
    ensures SumOver(shape, f) >= f(c)
    decreases |shape|
  {
    if shape == [] {
      assert c == [];
    } else {
      var tail := shape[1..];
      assert c == [c[0]] + c[1..];
      forall i: nat | i < shape[0]
        ensures Inner(tail, f)(i) >= 0
      {
        forall rest | InShape(rest, tail)
          ensures Fixing(i, f)(rest) >= 0
        {
          TailInShape(shape, i, rest);
        }
        SumOverNonNegative(tail, Fixing(i, f));
      }
      forall rest | InShape(rest, tail)
        ensures Fixing(c[0], f)(rest) >= 0
      {
        TailInShape(shape, c[0], rest);
      }
      SumOverAtLeast(tail, Fixing(c[0], f), c[1..]);
      SumAtLeast(shape[0], Inner(tail, f), c[0]);
    }
  }

  /* The condition is enough */

  lemma SourceIsCellRead(shape: seq<nat>, w: Window, idx: seq<nat>, c: seq<nat>, d: nat)
    requires WellFormed(shape, w) && |idx| == |c| == |shape| && d < |shape|
    ensures SourceCoordinate(shape, w, idx, c, d) == CellReads(AxisOf(shape, w, d), idx[d], c[d])
  {}

  // Every result element is one operand element, when the dimension returned has one element.
  lemma KeptElement(input: Tensor, w: Window, dim: nat, idx: seq<nat>)
    requires HasForm(input.shape, w, dim) && input.shape[dim] == 1 && InShape(idx, input.shape)
    requires forall d :: 0 <= d < |input.shape| ==> KeepsElements(AxisOf(input.shape, w, d))
    ensures ReduceWindowAt(input, w, idx) == CumSumAt(input, dim, idx)
  {
    hide At, Cell, KeepsElements, SumOver, Sum, CellReads, OwnIndex, SourceCoordinate;
    var shape := input.shape;
    var own := OwnCells(shape, w, dim, idx);
    var ws := WindowShape(w, |shape|);
    forall c | InShape(c, ws) && c != own
      ensures CellsAt(input, w, idx)(c) == 0
    {
      OtherCell(input, w, dim, idx, own, c);
    }
    SumOverOneTerm(ws, CellsAt(input, w, idx), own);
    OwnCellIs(input, w, idx, own);
    SumSingle(Along(input, dim, idx));
    assert idx[dim := 0] == idx;
  }

  lemma SumSingle(f: nat -> int)
    ensures Sum(1, f) == f(0)
  {
    assert Sum(1, f) == Sum(0, f) + f(0);
  }

  ghost predicate AreOwn(shape: seq<nat>, w: Window, idx: seq<nat>, own: seq<nat>)
    requires WellFormed(shape, w)
  {
    && |own| == |idx| == |shape|
    && forall d :: 0 <= d < |shape| ==>
         && own[d] < w.dims[d] && own[d] == OwnIndex(AxisOf(shape, w, d), idx[d])
         && SourceCoordinate(shape, w, idx, own, d) == idx[d]
  }

  lemma OwnCells(shape: seq<nat>, w: Window, dim: nat, idx: seq<nat>) returns (own: seq<nat>)
    requires HasForm(shape, w, dim) && shape[dim] == 1 && InShape(idx, shape)
    requires forall d :: 0 <= d < |shape| ==> KeepsElements(AxisOf(shape, w, d))
    ensures AreOwn(shape, w, idx, own) && InShape(own, WindowShape(w, |shape|))
  {
    hide KeepsElements, CellReads, OwnIndex, SourceCoordinate;
    forall d | 0 <= d < |shape|
      ensures 0 <= OwnIndex(AxisOf(shape, w, d), idx[d]) < w.dims[d]
      ensures CellReads(AxisOf(shape, w, d), idx[d], OwnIndex(AxisOf(shape, w, d), idx[d])) == idx[d]
    {
      OwnIndexReads(AxisOf(shape, w, d), idx[d]);
    }
    own := seq(|shape|, (d: nat) requires d < |shape| => OwnIndex(AxisOf(shape, w, d), idx[d]));
    forall d | 0 <= d < |shape|
      ensures SourceCoordinate(shape, w, idx, own, d) == idx[d]
    {
      SourceIsCellRead(shape, w, idx, own, d);
    }
  }

  lemma OwnCellIs(input: Tensor, w: Window, idx: seq<nat>, own: seq<nat>)
    requires WellFormed(input.shape, w) && InShape(idx, input.shape) && AreOwn(input.shape, w, idx, own)
    ensures Cell(input, w, idx, own) == At(input, idx)
  {
    hide At, SourceCoordinate, OwnIndex, AxisOf;
    assert Source(input.shape, w, idx, own) == idx;
  }

  lemma OtherCell(input: Tensor, w: Window, dim: nat, idx: seq<nat>, own: seq<nat>, c: seq<nat>)
    requires HasForm(input.shape, w, dim) && input.shape[dim] == 1 && InShape(idx, input.shape)
    requires forall d :: 0 <= d < |input.shape| ==> KeepsElements(AxisOf(input.shape, w, d))
    requires AreOwn(input.shape, w, idx, own) && InShape(c, WindowShape(w, |input.shape|)) && c != own
    ensures Cell(input, w, idx, c) == 0
  {
    hide At, KeepsElements, CellReads, OwnIndex, SourceCoordinate;
    var shape := input.shape;
    var d := DifferAt(c, own);
    SourceIsCellRead(shape, w, idx, c, d);
    if HitsAll(shape, w, idx, c) {
      OnlyOwnIndex(AxisOf(shape, w, d), idx[d], c[d]);
    }
  }

  lemma DifferAt(s: seq<nat>, t: seq<nat>) returns (d: nat)
    requires |s| == |t| && s != t
    ensures d < |s| && s[d] != t[d]
  {
    d :| d < |s| && s[d] != t[d];
  }

  // The window spans the dimension returned, which takes single steps; the others keep their elements.
  ghost predicate Spans(shape: seq<nat>, w: Window, dim: nat) {
    && HasForm(shape, w, dim) && shape[dim] > 1 && UnitAxis(AxisOf(shape, w, dim))
    && forall d :: 0 <= d < |shape| && d != dim && shape[d] > 1 ==> AxisOf(shape, w, d).base == AxisOf(shape, w, d).stride
  }

  lemma KeptBesideSpan(shape: seq<nat>, w: Window, dim: nat)
    requires HasForm(shape, w, dim) && shape[dim] > 1 && UnitAxis(AxisOf(shape, w, dim))
    requires forall d :: 0 <= d < |shape| && d != dim ==> shape[d] >= 1 && KeepsElements(AxisOf(shape, w, d))
    ensures Spans(shape, w, dim)
  {
    forall d | 0 <= d < |shape| && d != dim && shape[d] > 1
      ensures AxisOf(shape, w, d).base == AxisOf(shape, w, d).stride
    {
      var a := AxisOf(shape, w, d);
      assert KeepsElements(a) && a.window == 1;
      SameFactor(0, a.base - a.stride, a.size - 1);
    }
  }

  function Zeros(n: nat): (z: seq<nat>)
    ensures |z| == n && forall i :: 0 <= i < n ==> z[i] == 0
  {
    seq(n, _ => 0)
  }

  lemma {:induction false} SumOverOnes(shape: seq<nat>, f: seq<nat> -> int)
    requires forall d :: 0 <= d < |shape| ==> shape[d] == 1
    ensures SumOver(shape, f) == f(Zeros(|shape|))
    decreases |shape|
  {
    if shape == [] {
      assert Zeros(0) == [];
    } else {
      var tail := shape[1..];
      SumOverOnes(tail, Fixing(0, f));
      assert Zeros(|shape|) == [0] + Zeros(|tail|);
      SumSingle(Inner(tail, f));
    }
  }

  function OneDim(f: seq<nat> -> int, rank: nat, dim: nat): nat -> int
    requires dim < rank
  {
    (j: nat) => f(Zeros(rank)[dim := j])
  }

  lemma {:induction false} SumOverOneDim(shape: seq<nat>, dim: nat, f: seq<nat> -> int)
    requires dim < |shape| && forall d :: 0 <= d < |shape| && d != dim ==> shape[d] == 1
    ensures SumOver(shape, f) == Sum(shape[dim], OneDim(f, |shape|, dim))
    decreases |shape|
  {
    var tail := shape[1..];
    if dim == 0 {
      forall i: nat | i < shape[0]
        ensures Inner(tail, f)(i) == OneDim(f, |shape|, 0)(i)
      {
        SumOverOnes(tail, Fixing(i, f));
        assert Zeros(|shape|)[0 := i] == [i] + Zeros(|tail|);
      }
      SumEqual(shape[0], Inner(tail, f), OneDim(f, |shape|, 0));
    } else {
      SumSingle(Inner(tail, f));
      SumOverOneDim(tail, dim - 1, Fixing(0, f));
      forall j: nat | j < shape[dim]
        ensures OneDim(Fixing(0, f), |tail|, dim - 1)(j) == OneDim(f, |shape|, dim)(j)
      {
        assert Zeros(|shape|)[dim := j] == [0] + Zeros(|tail|)[dim - 1 := j];
      }
      SumEqual(shape[dim], OneDim(Fixing(0, f), |tail|, dim - 1), OneDim(f, |shape|, dim));
    }
  }

  // The window cell at distance j along `dim` holds the element j - (size - 1) away, if there is one.
  lemma SpanCell(input: Tensor, w: Window, dim: nat, idx: seq<nat>, j: nat)
    requires Spans(input.shape, w, dim) && InShape(idx, input.shape) && j < input.shape[dim]
    ensures var p: int := idx[dim] + j - (input.shape[dim] - 1);
            Cell(input, w, idx, Zeros(|input.shape|)[dim := j]) == if p >= 0 then At(input, idx[dim := p]) else 0
  {
    hide At;
    var c := Zeros(|input.shape|)[dim := j];
    var p: int := idx[dim] + j - (input.shape[dim] - 1);
    forall d | 0 <= d < |input.shape|
      ensures SourceCoordinate(input.shape, w, idx, c, d) == if d != dim then idx[d] else if p >= 0 then p else -1
    {
      SpanCoordinate(input.shape, w, dim, idx, c, d);
    }
    hide SourceCoordinate;
    if p >= 0 {
      assert Source(input.shape, w, idx, c) == idx[dim := p];
    } else {
      assert SourceCoordinate(input.shape, w, idx, c, dim) < 0;
    }
  }

  lemma SpanCoordinate(shape: seq<nat>, w: Window, dim: nat, idx: seq<nat>, c: seq<nat>, d: nat)
    requires Spans(shape, w, dim) && InShape(idx, shape) && |c| == |shape| && d < |shape| && (d != dim ==> c[d] == 0)
    ensures var p := (idx[dim] as int) + c[dim] - (shape[dim] - 1);
            SourceCoordinate(shape, w, idx, c, d) == if d != dim then idx[d] else if p >= 0 then p else -1
  {
    hide CellReads, SourceCoordinate;
    var a := AxisOf(shape, w, d);
    SourceIsCellRead(shape, w, idx, c, d);
    if d != dim {
      CellReadsIs(a, idx[d], 0, idx[d]);
    } else {
      UnitReads(a, idx[d], c[d]);
    }
  }

  lemma UnitReads(a: Axis, i: nat, c: nat)
    requires IsAxis(a) && UnitAxis(a)
    ensures CellReads(a, i, c) == if i + c - a.low >= 0 then i + c - a.low else -1
  {}

  lemma SpanElement(input: Tensor, w: Window, dim: nat, idx: seq<nat>)
    requires Spans(input.shape, w, dim) && InShape(idx, input.shape)
    ensures ReduceWindowAt(input, w, idx) == CumSumAt(input, dim, idx)
  {
    hide At, Cell, Sum, SumOver;
    var n, i := input.shape[dim], idx[dim];
    var ws := WindowShape(w, |input.shape|);
    var f := OneDim(CellsAt(input, w, idx), |ws|, dim);
    SumOverOneDim(ws, dim, CellsAt(input, w, idx));
    var skip := n - 1 - i;
    SumShift(skip, i + 1, f);
    forall j: nat | j < skip
      ensures f(j) == 0
    {
      SpanCell(input, w, dim, idx, j);
    }
    SumZero(skip, f);
    forall j: nat | j < i + 1
      ensures Offset(skip, f)(j) == Along(input, dim, idx)(j)
    {
      SpanCell(input, w, dim, idx, skip + j);
    }
    SumEqual(i + 1, Offset(skip, f), Along(input, dim, idx));
  }

  lemma ShapeIsKept(shape: seq<nat>, w: Window, dim: nat)
    requires HasForm(shape, w, dim)
    ensures ResultShape(shape, w) == shape <==> forall d :: 0 <= d < |shape| ==> KeepsSize(AxisOf(shape, w, d))
  {
    hide KeepsSize, ResultDim;
    forall d | 0 <= d < |shape|
      ensures ResultShape(shape, w)[d] == shape[d] <==> KeepsSize(AxisOf(shape, w, d))
    {
      SizeIsKept(AxisOf(shape, w, d));
    }
  }

  lemma UnitKeepsSize(a: Axis)
    requires IsAxis(a) && UnitAxis(a) && a.size >= 1 && a.low == a.size - 1 && a.window == a.size
    ensures KeepsSize(a)
  {}

  // An accepted window that meets the condition is the prefix sum of every input.
  lemma KeptSumsAgree(input: Tensor, w: Window, dim: nat)
    requires HasForm(input.shape, w, dim) && KeepsSums(input.shape, w, dim)
    ensures Agrees(input, w, dim)
  {
    hide KeepsSize, KeepsElements, ReduceWindowAt, CumSumAt, ResultShape, At;
    var shape := input.shape;
    forall d | 0 <= d < |shape|
      ensures KeepsSize(AxisOf(shape, w, d))
    {
      var a := AxisOf(shape, w, d);
      if 0 !in shape {
        if d == dim && shape[d] > 1 {
          UnitKeepsSize(a);
        } else {
          KeptElementsKeepSize(a);
        }
      }
    }
    ShapeIsKept(shape, w, dim);
    forall idx | InShape(idx, shape)
      ensures ReduceWindowAt(input, w, idx) == CumSumAt(input, dim, idx)
    {
      NothingIsZero(shape, idx);
      if shape[dim] == 1 {
        KeptElement(input, w, dim, idx);
      } else {
        KeptBesideSpan(shape, w, dim);
        SpanElement(input, w, dim, idx);
      }
    }
  }

  lemma NothingIsZero(shape: seq<nat>, idx: seq<nat>)
    requires InShape(idx, shape)
    ensures 0 !in shape
  {}

  /* And necessary */

  ghost predicate AlwaysAgrees(shape: seq<nat>, w: Window, dim: nat)
    requires WellFormed(shape, w)
  {
    forall input: Tensor :: input.Valid() && input.shape == shape ==> Agrees(input, w, dim)
  }

  // An element the prefix sum counts is read by some cell of the window.
  lemma CountedIsRead(shape: seq<nat>, w: Window, dim: nat, idx: seq<nat>, x: nat) returns (c: seq<nat>)
    requires WellFormed(shape, w) && AlwaysAgrees(shape, w, dim) && InShape(idx, shape)
    requires dim < |shape| && x <= idx[dim]
    ensures InShape(c, WindowShape(w, |shape|)) && HitsAll(shape, w, idx, c) && Source(shape, w, idx, c) == idx[dim := x]
  {
    hide SumOver, Sum, At, Impulse, HitsAll, Source, ResultShape;
    var e := idx[dim := x];
    var t := Impulse(shape, e);
    assert Agrees(t, w, dim);
    forall j: nat | j < idx[dim] + 1
      ensures Along(t, dim, idx)(j) >= 0
    {
      AtImpulse(shape, e, idx[dim := j]);
    }
    AtImpulse(shape, e, e);
    SumAtLeast(idx[dim] + 1, Along(t, dim, idx), x);
    var ws := WindowShape(w, |shape|);
    if forall y :: InShape(y, ws) ==> CellsAt(t, w, idx)(y) == 0 {
      SumOverZero(ws, CellsAt(t, w, idx));
    }
    c :| InShape(c, ws) && CellsAt(t, w, idx)(c) != 0;
    AtImpulse(shape, e, Source(shape, w, idx, c));
  }

  // Some cell of window i of dimension d reads element x, if x is i or d is summed over and x comes before.
  lemma AxisIsRead(shape: seq<nat>, w: Window, dim: nat, d: nat, i: nat, x: nat)
    requires WellFormed(shape, w) && AlwaysAgrees(shape, w, dim) && 0 !in shape
    requires dim < |shape| && d < |shape| && i < shape[d] && (x == i || (d == dim && x <= i))
    ensures IsRead(AxisOf(shape, w, d), i, x)
  {
    hide AlwaysAgrees, SourceCoordinate, CellReads;
    var idx := Zeros(|shape|)[d := i];
    forall k | 0 <= k < |shape|
      ensures idx[k] < shape[k]
    {
      assert shape[k] in shape;
    }
    var c := CountedIsRead(shape, w, dim, idx, if d == dim then x else 0);
    SourceIsCellRead(shape, w, idx, c, d);
    assert Source(shape, w, idx, c)[d] == x;
    assert SourceCoordinate(shape, w, idx, c, d) == x && c[d] < AxisOf(shape, w, d).window;
  }

  // No cell of the first window reads a later element of another dimension.
  lemma FirstIsAlone(shape: seq<nat>, w: Window, dim: nat, d: nat, x: nat)
    requires HasForm(shape, w, dim) && AlwaysAgrees(shape, w, dim) && 0 !in shape
    requires shape[dim] == 1 && d < |shape| && d != dim && 1 <= x < shape[d]
    ensures !IsRead(AxisOf(shape, w, d), 0, x)
  {
    hide SumOver, Sum, At, Impulse, ResultShape, SourceCoordinate, CellReads;
    if IsRead(AxisOf(shape, w, d), 0, x) {
      var k: nat :| k < AxisOf(shape, w, d).window && CellReads(AxisOf(shape, w, d), 0, k) == x;
      var idx, e, c := Zeros(|shape|), Zeros(|shape|)[d := x], Zeros(|shape|)[d := k];
      InZeroShape(shape, d, x);
      CellOfZero(shape, w, dim, d, k, x);
      var t := Impulse(shape, e);
      assert Agrees(t, w, dim);
      assert idx[dim := 0] == idx && idx[d] != e[d];
      SumSingle(Along(t, dim, idx));
      AtImpulse(shape, e, idx[dim := 0]);
      OneReadIsCounted(shape, w, idx, e, c);
    }
  }

  lemma InZeroShape(shape: seq<nat>, d: nat, x: nat)
    requires 0 !in shape && d < |shape| && x < shape[d]
    ensures InShape(Zeros(|shape|), shape) && InShape(Zeros(|shape|)[d := x], shape)
  {
    forall k | 0 <= k < |shape|
      ensures shape[k] > 0
    {
      assert shape[k] in shape;
    }
  }

  // Cell k on dimension d and the first cell elsewhere read the first element but for dimension d.
  lemma CellOfZero(shape: seq<nat>, w: Window, dim: nat, d: nat, k: nat, x: nat)
    requires HasForm(shape, w, dim) && shape[dim] == 1 && 0 !in shape && d < |shape| && x < shape[d]
    requires k < AxisOf(shape, w, d).window && CellReads(AxisOf(shape, w, d), 0, k) == x
    ensures var idx, c := Zeros(|shape|), Zeros(|shape|)[d := k];
      && InShape(c, WindowShape(w, |shape|)) && HitsAll(shape, w, idx, c) && Source(shape, w, idx, c) == Zeros(|shape|)[d := x]
  {
    hide SourceCoordinate, CellReads;
    var idx, c := Zeros(|shape|), Zeros(|shape|)[d := k];
    InZeroShape(shape, d, x);
    forall j | 0 <= j < |shape|
      ensures SourceCoordinate(shape, w, idx, c, j) == Zeros(|shape|)[d := x][j] && c[j] < w.dims[j]
    {
      SourceIsCellRead(shape, w, idx, c, j);
      if j != d {
        CellReadsIs(AxisOf(shape, w, j), 0, 0, 0);
      }
    }
    assert Source(shape, w, idx, c) == Zeros(|shape|)[d := x];
  }

  // A window that reads an impulse sums to at least one.
  lemma OneReadIsCounted(shape: seq<nat>, w: Window, idx: seq<nat>, e: seq<nat>, c: seq<nat>)
    requires WellFormed(shape, w) && InShape(idx, shape) && InShape(e, shape) && InShape(c, WindowShape(w, |shape|))
    requires HitsAll(shape, w, idx, c) && Source(shape, w, idx, c) == e
    ensures ReduceWindowAt(Impulse(shape, e), w, idx) >= 1
  {
    hide SumOver, At, Impulse, HitsAll, Source;
    var t, ws := Impulse(shape, e), WindowShape(w, |shape|);
    forall y | InShape(y, ws)
      ensures CellsAt(t, w, idx)(y) >= 0
    {
      if |y| == |shape| && HitsAll(shape, w, idx, y) {
        AtImpulse(shape, e, Source(shape, w, idx, y));
      }
    }
    AtImpulse(shape, e, e);
    SumOverAtLeast(ws, CellsAt(t, w, idx), c);
  }

  // A window that is a prefix sum of every input meets the condition.
  lemma AgreementKeepsSums(shape: seq<nat>, w: Window, dim: nat)
    requires HasForm(shape, w, dim) && AlwaysAgrees(shape, w, dim)
    ensures KeepsSums(shape, w, dim)
  {
    hide KeepsSize, KeepsElements, Impulse, CellReads, ResultShape, IsRead;
    var some := Impulse(shape, []);
    assert Agrees(some, w, dim);
    ShapeIsKept(shape, w, dim);
    if 0 !in shape {
      forall d | 0 <= d < |shape|
        ensures if d == dim && shape[d] > 1 then UnitAxis(AxisOf(shape, w, d)) else KeepsElements(AxisOf(shape, w, d))
      {
        AxisIsKept(shape, w, dim, d);
      }
    }
  }

  lemma AxisIsKept(shape: seq<nat>, w: Window, dim: nat, d: nat)
    requires HasForm(shape, w, dim) && AlwaysAgrees(shape, w, dim) && 0 !in shape && d < |shape|
    requires KeepsSize(AxisOf(shape, w, d))
    ensures if d == dim && shape[d] > 1 then UnitAxis(AxisOf(shape, w, d)) else KeepsElements(AxisOf(shape, w, d))
  {
    hide KeepsSize, KeepsElements, CellReads, IsRead, AlwaysAgrees;
    var a := AxisOf(shape, w, d);
    assert shape[d] in shape;
    forall i: nat, x: nat | i < a.size && (x == i || (d == dim && x <= i))
      ensures IsRead(a, i, x)
    {
      AxisIsRead(shape, w, dim, d, i, x);
    }
    if d == dim && shape[d] > 1 {
      SpannedIsUnit(a);
    } else {
      forall x: nat | 1 <= x < a.size
        ensures !IsRead(a, 0, x)
      {
        if shape[dim] == 1 {
          FirstIsAlone(shape, w, dim, d, x);
        } else {
          SingleReadsFirst(a, x);
        }
      }
      ElementsAreKept(a);
    }
  }

  // A window of one element reads nothing but its own.
  lemma SingleReadsFirst(a: Axis, x: nat)
    requires IsAxis(a) && a.window == 1 && a.low == 0 && x >= 1
    ensures !IsRead(a, 0, x)
  {
    hide CellReads;
    CellReadsIs(a, 0, 0, 0);
  }

  // The sum over an accepted window is the prefix sum along the dimension the matcher returns, for
  // every input, exactly when the condition holds.
  lemma AcceptedIsCumSumIff(shape: seq<nat>, w: Window, dim: nat)
    requires Accepts(shape, w, dim)
    ensures AlwaysAgrees(shape, w, dim) <==> KeepsSums(shape, w, dim)
  {
    hide KeepsSums, Agrees, HasForm;
    AcceptedHasForm(shape, w, dim);
    if AlwaysAgrees(shape, w, dim) {
      AgreementKeepsSums(shape, w, dim);
    }
    if KeepsSums(shape, w, dim) {
      forall input: Tensor | input.Valid() && input.shape == shape
        ensures Agrees(input, w, dim)
      {
        KeptSumsAgree(input, w, dim);
      }
    }
  }

  // A wide stride on a dimension of one element does no harm.
  lemma InertWideStride()
    ensures var w := Window([1, 1], Some([0x1_0000_0001, 1]), None, None, [0, 0, 0, 0]);
            Accepts([1, 2], w, 0) && AlwaysAgrees([1, 2], w, 0)
  {
    hide AlwaysAgrees;
    var w := Window([1, 1], Some([0x1_0000_0001, 1]), None, None, [0, 0, 0, 0]);
    FirstUnitDimIs([1, 2], 0);
    assert Accepts([1, 2], w, 0);
    assert KeepsElements(AxisOf([1, 2], w, 0)) && KeepsElements(AxisOf([1, 2], w, 1));
    AcceptedIsCumSumIff([1, 2], w, 0);
  }

  /* Attributes of 32 bits */

  // No window attribute is large enough for the conversion to 32 bits to change it.
  predicate FitsInt32(w: Window) {
    && InInt32(w.dims)
    && (w.strides.Some? ==> InInt32(w.strides.value))
    && (w.baseDilations.Some? ==> InInt32(w.baseDilations.value))
    && (w.windowDilations.Some? ==> InInt32(w.windowDilations.value))
  }

  // Such attributes always meet the condition.
  lemma AcceptedIsCumSum(shape: seq<nat>, w: Window, dim: nat)
    requires Accepts(shape, w, dim) && FitsInt32(w)
    ensures KeepsSums(shape, w, dim) && AlwaysAgrees(shape, w, dim)
  {
    hide KeepsElements, KeepsSize, Agrees;
    OnesChecked(w.dims);
    if w.strides.Some? { OnesChecked(w.strides.value); }
    if w.baseDilations.Some? { OnesChecked(w.baseDilations.value); }
    if w.windowDilations.Some? { OnesChecked(w.windowDilations.value); }
    AcceptedHasForm(shape, w, dim);
    forall d | 0 <= d < |shape|
      ensures UnitAxis(AxisOf(shape, w, d))
      ensures KeepsSize(AxisOf(shape, w, d))
      ensures shape[d] >= 1 && !(d == dim && shape[d] > 1) ==> KeepsElements(AxisOf(shape, w, d))
    {
      UnitAxisKeeps(AxisOf(shape, w, d));
    }
    AcceptedIsCumSumIff(shape, w, dim);
  }

  lemma UnitAxisKeeps(a: Axis)
    requires IsAxis(a) && UnitAxis(a) && ((a.window == 1 && a.low == 0) || (a.size >= 1 && a.window == a.size && a.low == a.size - 1))
    ensures KeepsSize(a)
    ensures a.size >= 1 && a.window == 1 ==> KeepsElements(a)
  {}
}
