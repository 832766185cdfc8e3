/** The cumsum matcher of `StableHLOToTTIRPatterns.cpp`: which sum-`reduce_window` ops become cumsum. */
module CumSum {
  import opened Shapes
  import opened Tensors
  import opened Wrappers

  // The attributes of a reduce_window op with an `add` body and initial value zero. Absent strides
  // and dilations mean all ones; `padding` is flattened, low and high of dimension 0 first.
  datatype Window = Window(
    dims: seq<int>, strides: Option<seq<int>>, baseDilations: Option<seq<int>>, windowDilations: Option<seq<int>>,
    padding: seq<int>)

  // ---- reduce_window with a sum body, as the StableHLO specification defines it ----

  function OrOnes(a: Option<seq<int>>, rank: nat): seq<int> {
    match a
    case Some(v) => v
    case None => seq(rank, _ => 1)
  }

  predicate Positive(s: seq<int>, rank: nat) {
    |s| == rank && forall i :: 0 <= i < rank ==> s[i] >= 1
  }

  predicate WellFormed(shape: seq<nat>, w: Window) {
    && Positive(w.dims, |shape|)
    && Positive(OrOnes(w.strides, |shape|), |shape|)
    && Positive(OrOnes(w.baseDilations, |shape|), |shape|)
    && Positive(OrOnes(w.windowDilations, |shape|), |shape|)
    && |w.padding| == 2 * |shape|
  }

  // Size of one result dimension.
  function ResultDim(size: nat, window: int, stride: int, baseDilation: int, windowDilation: int, low: int, high: int): nat
    requires window >= 1 && stride >= 1 && baseDilation >= 1 && windowDilation >= 1
  {
    var dilated := if size == 0 then 0 else (size - 1) * baseDilation + 1;
    var padded := low + dilated + high;
    var extent := (window - 1) * windowDilation + 1;
    if padded <= 0 || extent > padded then 0 else (padded - extent) / stride + 1
  }

  function ResultSize(shape: seq<nat>, w: Window, d: nat): nat
    requires WellFormed(shape, w) && d < |shape|
  {
    var strides, bases, windows := OrOnes(w.strides, |shape|), OrOnes(w.baseDilations, |shape|), OrOnes(w.windowDilations, |shape|);
    ResultDim(shape[d], w.dims[d], strides[d], bases[d], windows[d], w.padding[2 * d], w.padding[2 * d + 1])
  }

  function ResultShape(shape: seq<nat>, w: Window): seq<nat>
    requires WellFormed(shape, w)
  {
    hide WellFormed;
    seq(|shape|, (d: nat) requires d < |shape| => ResultSize(shape, w, d))
  }

  // The padded and dilated position, on dimension d, of window cell c of result index idx.
  function Position(rank: nat, w: Window, idx: seq<nat>, c: seq<nat>, d: nat): int
    requires d < |idx| && d < |c| && d < rank
    requires |OrOnes(w.strides, rank)| == |OrOnes(w.windowDilations, rank)| == rank
  {
    idx[d] * OrOnes(w.strides, rank)[d] + c[d] * OrOnes(w.windowDilations, rank)[d]
  }

  // The operand coordinate at padded and dilated position p; -1 on padding below and between elements.
  function Coordinate(p: int, low: int, baseDilation: int): int
    requires baseDilation >= 1
  {
    var q := p - low;
    if q >= 0 && q % baseDilation == 0 then q / baseDilation else -1
  }

  function SourceCoordinate(shape: seq<nat>, w: Window, idx: seq<nat>, c: seq<nat>, d: nat): int
    requires WellFormed(shape, w) && |idx| == |c| == |shape| && d < |shape|
  {
    Coordinate(Position(|shape|, w, idx, c, d), w.padding[2 * d], OrOnes(w.baseDilations, |shape|)[d])
  }

  predicate HitsAll(shape: seq<nat>, w: Window, idx: seq<nat>, c: seq<nat>)
    requires WellFormed(shape, w) && |idx| == |c| == |shape|
  {
    forall d :: 0 <= d < |shape| ==> 0 <= SourceCoordinate(shape, w, idx, c, d) < shape[d]
  }

  function Source(shape: seq<nat>, w: Window, idx: seq<nat>, c: seq<nat>): seq<nat>
    requires WellFormed(shape, w) && |idx| == |c| == |shape| && HitsAll(shape, w, idx, c)
  {
    seq(|shape|, d requires 0 <= d < |shape| => SourceCoordinate(shape, w, idx, c, d))
  }

  // What window cell c of result index idx contributes: an input element, or the initial value zero.
  function Cell(input: Tensor, w: Window, idx: seq<nat>, c: seq<nat>): int
    requires WellFormed(input.shape, w)
  {
    if |idx| == |c| == |input.shape| && HitsAll(input.shape, w, idx, c)
    then At(input, Source(input.shape, w, idx, c)) else 0
  }

  function CellsAt(input: Tensor, w: Window, idx: seq<nat>): seq<nat> -> int
    requires WellFormed(input.shape, w)
  {
    (c: seq<nat>) => Cell(input, w, idx, c)
  }

  function WindowShape(w: Window, rank: nat): seq<nat>
    requires Positive(w.dims, rank)
  {
    seq(rank, d requires 0 <= d < rank => w.dims[d])
  }

  // One element of the reduce_window result: the sum over the whole window.
  function ReduceWindowAt(input: Tensor, w: Window, idx: seq<nat>): int
    requires WellFormed(input.shape, w)
  {
    SumOver(WindowShape(w, |input.shape|), CellsAt(input, w, idx))
  }

  // ---- ttir.cumsum ----

  function Along(input: Tensor, dim: nat, idx: seq<nat>): nat -> int
    requires dim < |idx|
  {
    (j: nat) => At(input, idx[dim := j])
  }

  // One element of the cumulative sum along `dim`.
  function CumSumAt(input: Tensor, dim: nat, idx: seq<nat>): int
    requires dim < |idx|
  {
    Sum(idx[dim] + 1, Along(input, dim, idx))
  }

  // reduce_window and cumsum along `dim` agree in shape and in every element.
  ghost predicate Agrees(input: Tensor, w: Window, dim: nat)
    requires WellFormed(input.shape, w)
  {
    && dim < |input.shape|
    && ResultShape(input.shape, w) == input.shape
    && forall idx :: InShape(idx, input.shape) ==> ReduceWindowAt(input, w, idx) == CumSumAt(input, dim, idx)
  }

  // ---- the matcher ----

  // Conversion of an int64 value to a 32-bit `int`, which the all-ones checks perform.
  function ToInt32(v: int): int {
    var m := v % 0x1_0000_0000;
    if m >= 0x8000_0000 then m - 0x1_0000_0000 else m
  }

  predicate AllOnes32(s: seq<int>) {
    forall i :: 0 <= i < |s| ==> ToInt32(s[i]) == 1
  }

  predicate OnesOrAbsent(a: Option<seq<int>>) {
    a.Some? ==> AllOnes32(a.value)
  }

  // `hasValidWindowAttributes`.
  predicate HasValidWindowAttributes(w: Window) {
    OnesOrAbsent(w.strides) && OnesOrAbsent(w.baseDilations) && OnesOrAbsent(w.windowDilations)
  }

  predicate AllEqual(s: seq<int>) {
    forall i :: 0 <= i < |s| ==> s[i] == s[0]
  }

  // What the matcher does: refuse, maybe after reading the shape at a dimension nothing assigned, or
  // accept with a dimension.
  datatype Verdict = Refused(readUnassigned: bool) | Accepted(dim: nat)

  // `findDimensionWithShape`: the first dimension of size 1.
  method FindDimensionWithShape(shape: seq<nat>) returns (v: Verdict)
    ensures v == FirstUnitDim(shape)
  {
    var dimension := -1;
    for i := 0 to |shape|
      invariant dimension == i - 1
      invariant forall k :: 0 <= k < i ==> shape[k] != 1
    {
      dimension := dimension + 1;
      if shape[i] == 1 {
        FirstUnitDimIs(shape, i);
        return Accepted(dimension);
      }
    }
    NoUnitDim(shape);
    return Refused(false);
  }

  function FirstUnitDim(shape: seq<nat>): Verdict {
    if 1 in shape then Accepted(FirstIndex(shape, 1)) else Refused(false)
  }

  function FirstIndex(s: seq<nat>, x: nat): (i: nat)
    requires x in s
    ensures i < |s| && s[i] == x && forall j :: 0 <= j < i ==> s[j] != x
  {
    if s[0] == x then 0 else 1 + FirstIndex(s[1..], x)
  }

  lemma FirstUnitDimIs(shape: seq<nat>, i: nat)
    requires i < |shape| && shape[i] == 1 && forall k :: 0 <= k < i ==> shape[k] != 1
    ensures FirstUnitDim(shape) == Accepted(i)
  {
    assert 1 in shape;
    var j := FirstIndex(shape, 1);
  }

  lemma NoUnitDim(shape: seq<nat>)
    requires forall k :: 0 <= k < |shape| ==> shape[k] != 1
    ensures FirstUnitDim(shape) == Refused(false)
  {}

  // Non-splat padding the matcher accepts: one window dimension spans its whole dimension, of size at
  // least 2, all others are 1, and the only padding is that size minus one, low, on that dimension.
  predicate SpansDim(shape: seq<nat>, w: Window, dim: nat) {
    && dim < |shape| == |w.dims|
    && w.dims[dim] == shape[dim] && shape[dim] > 1
    && (forall d :: 0 <= d < |w.dims| && d != dim ==> w.dims[d] == 1)
    && forall i :: 0 <= i < |w.padding| ==> w.padding[i] == if i == 2 * dim then w.dims[dim] - 1 else 0
  }

  // `validateNonSplatPadding`. When all windows are 1 nothing assigns the dimension; the size read
  // there, whatever `stray` value it is, does not change that the window is refused.
  method ValidateNonSplatPadding(shape: seq<nat>, w: Window, stray: int) returns (v: Verdict)
    requires Positive(w.dims, |shape|) && |w.padding| == 2 * |shape|
    ensures v.Accepted? ==> SpansDim(shape, w, v.dim)
    ensures v == Refused(true) <==> AllOnes(w.dims)
    ensures forall d: nat :: SpansDim(shape, w, d) ==> v == Accepted(d)
  {
    var dimArgValue := -1;
    var dimension: Option<nat> := None;
    for idx := 0 to |w.dims|
      invariant dimension.None? ==> dimArgValue == -1 && forall d :: 0 <= d < idx ==> w.dims[d] == 1
      invariant dimension.Some? ==> dimension.value < idx && w.dims[dimension.value] == dimArgValue != 1
      invariant dimension.Some? ==> forall d :: 0 <= d < idx && d != dimension.value ==> w.dims[d] == 1
    {
      var windowDim := w.dims[idx];
      if windowDim == 1 {
        continue;
      }
      if dimArgValue != -1 {
        return Refused(false);
      }
      dimArgValue := windowDim;
      dimension := Some(idx);
    }
    var size := if dimension.Some? then shape[dimension.value] else stray;
    if dimArgValue != size || dimArgValue <= 1 {
      return Refused(dimension.None?);
    }
    var dim := dimension.value;
    for i := 0 to |w.padding|
      invariant forall k :: 0 <= k < i ==> w.padding[k] == if k == 2 * dim then dimArgValue - 1 else 0
    {
      if i == dim * 2 {
        if w.padding[i] != dimArgValue - 1 {
          return Refused(false);
        }
      } else if w.padding[i] != 0 {
        return Refused(false);
      }
    }
    return Accepted(dim);
  }

  // `hasValidInputAndPadding`. The conversion turns scalars into 1-D tensors, so the rank is positive.
  method HasValidInputAndPadding(shape: seq<nat>, w: Window, stray: int) returns (v: Verdict)
    requires |shape| > 0 && Positive(w.dims, |shape|)
    ensures v == PaddingVerdict(shape, w)
  {
    if |w.padding| != |shape| * 2 {
      return Refused(false);
    }
    if AllEqual(w.padding) {
      if w.padding[0] != 0 {
        return Refused(false);
      }
      if !AllOnes32(w.dims) {
        return Refused(false);
      }
      v := FindDimensionWithShape(shape);
    } else {
      v := ValidateNonSplatPadding(shape, w, stray);
    }
  }

  // What the padding and the window dimensions decide.
  ghost function PaddingVerdict(shape: seq<nat>, w: Window): Verdict
    requires |shape| > 0 && Positive(w.dims, |shape|)
  {
    if |w.padding| != 2 * |shape| then Refused(false)
    else if AllEqual(w.padding) then
      if w.padding[0] == 0 && AllOnes32(w.dims) then FirstUnitDim(shape) else Refused(false)
    else if AllOnes(w.dims) then Refused(true)
    else if exists d: nat :: SpansDim(shape, w, d) then (var d: nat :| SpansDim(shape, w, d); Accepted(d))
    else Refused(false)
  }

  ghost predicate Accepts(shape: seq<nat>, w: Window, dim: nat) {
    && |shape| > 0 && WellFormed(shape, w)
    && HasValidWindowAttributes(w) && PaddingVerdict(shape, w) == Accepted(dim)
  }

  // `isCumSum`, for a body that adds and an initial value of zero. No stray value makes it accept. It
  // accepts a dimension exactly when strides and dilations, where given, are 1 modulo 2^32, and either
  // nothing is padded, the windows are 1 modulo 2^32 and this is the first dimension of size 1, or the
  // window spans this dimension alone.
  method IsCumSum(shape: seq<nat>, w: Window, stray: int) returns (v: Verdict)
    requires |shape| > 0 && Positive(w.dims, |shape|)
    ensures v == if HasValidWindowAttributes(w) then PaddingVerdict(shape, w) else Refused(false)
    ensures v.Accepted? && WellFormed(shape, w) ==> Accepts(shape, w, v.dim)
    ensures forall dim: nat :: v == Accepted(dim) <==>
      && (w.strides.Some? ==> forall i :: 0 <= i < |w.strides.value| ==> w.strides.value[i] % 0x1_0000_0000 == 1)
      && (w.baseDilations.Some? ==> forall i :: 0 <= i < |w.baseDilations.value| ==> w.baseDilations.value[i] % 0x1_0000_0000 == 1)
      && (w.windowDilations.Some? ==> forall i :: 0 <= i < |w.windowDilations.value| ==> w.windowDilations.value[i] % 0x1_0000_0000 == 1)
      && |w.padding| == 2 * |shape| && dim < |shape|
      && (|| (&& (forall i :: 0 <= i < |w.padding| ==> w.padding[i] == 0)
              && (forall i :: 0 <= i < |w.dims| ==> w.dims[i] % 0x1_0000_0000 == 1)
              && shape[dim] == 1 && forall d :: 0 <= d < dim ==> shape[d] != 1)
          || (&& w.dims[dim] == shape[dim] > 1
              && (forall d :: 0 <= d < |shape| && d != dim ==> w.dims[d] == 1)
              && forall i :: 0 <= i < |w.padding| ==> w.padding[i] == if i == 2 * dim then shape[dim] - 1 else 0))
  {
    AttributesAreOnes(w);
    forall dim: nat {
      PaddingAccepts(shape, w, dim);
    }
    hide PaddingVerdict, HasValidWindowAttributes, Accepts;
    if !HasValidWindowAttributes(w) {
      return Refused(false);
    }
    v := HasValidInputAndPadding(shape, w, stray);
  }

  lemma AttributesAreOnes(w: Window)
    ensures HasValidWindowAttributes(w) <==>
      && (w.strides.Some? ==> forall i :: 0 <= i < |w.strides.value| ==> w.strides.value[i] % 0x1_0000_0000 == 1)
      && (w.baseDilations.Some? ==> forall i :: 0 <= i < |w.baseDilations.value| ==> w.baseDilations.value[i] % 0x1_0000_0000 == 1)
      && (w.windowDilations.Some? ==> forall i :: 0 <= i < |w.windowDilations.value| ==> w.windowDilations.value[i] % 0x1_0000_0000 == 1)
  {
    hide AllOnes32;
    OnesChecked(OrOnes(w.strides, 0));
    OnesChecked(OrOnes(w.baseDilations, 0));
    OnesChecked(OrOnes(w.windowDilations, 0));
  }

  // The padding verdict accepts a dimension in one of these two ways.
  lemma PaddingAccepts(shape: seq<nat>, w: Window, dim: nat)
    requires |shape| > 0 && Positive(w.dims, |shape|)
    ensures PaddingVerdict(shape, w) == Accepted(dim) <==>
      && |w.padding| == 2 * |shape| && dim < |shape|
      && (|| (&& (forall i :: 0 <= i < |w.padding| ==> w.padding[i] == 0)
              && (forall i :: 0 <= i < |w.dims| ==> w.dims[i] % 0x1_0000_0000 == 1)
              && shape[dim] == 1 && forall d :: 0 <= d < dim ==> shape[d] != 1)
          || (&& w.dims[dim] == shape[dim] > 1
              && (forall d :: 0 <= d < |shape| && d != dim ==> w.dims[d] == 1)
              && forall i :: 0 <= i < |w.padding| ==> w.padding[i] == if i == 2 * dim then shape[dim] - 1 else 0))
  {
    hide AllOnes32, FirstUnitDim, AllOnes, PaddingVerdict;
    if |w.padding| == 2 * |shape| {
      SpannedOnce(shape, w, dim);
      SpansDimIs(shape, w, dim);
      if AllEqual(w.padding) {
        OnesChecked(w.dims);
        SplatPadding(w.padding);
        SplatVerdict(shape, w);
        FirstUnitAccepts(shape, dim);
      } else {
        NotSplat(w.padding);
        SpannedVerdict(shape, w, dim);
      }
    } else {
      OtherPadding(shape, w);
    }
  }

  lemma OtherPadding(shape: seq<nat>, w: Window)
    requires |shape| > 0 && Positive(w.dims, |shape|) && |w.padding| != 2 * |shape|
    ensures PaddingVerdict(shape, w) == Refused(false)
  {}

  lemma SplatVerdict(shape: seq<nat>, w: Window)
    requires |shape| > 0 && Positive(w.dims, |shape|) && |w.padding| == 2 * |shape| && AllEqual(w.padding)
    ensures PaddingVerdict(shape, w) == if w.padding[0] == 0 && AllOnes32(w.dims) then FirstUnitDim(shape) else Refused(false)
  {
    hide AllOnes32, FirstUnitDim, AllEqual;
  }

  // When the padding is not splat a dimension is accepted iff it is spanned.
  lemma SpannedVerdict(shape: seq<nat>, w: Window, dim: nat)
    requires |shape| > 0 && Positive(w.dims, |shape|) && |w.padding| == 2 * |shape| && !AllEqual(w.padding)
    ensures PaddingVerdict(shape, w) == Accepted(dim) <==> SpansDim(shape, w, dim)
  {
    SpannedOnce(shape, w, dim);
    hide SpansDim, AllOnes, AllEqual, FirstUnitDim, AllOnes32;
  }

  lemma SplatPadding(padding: seq<int>)
    requires AllEqual(padding) && padding != []
    ensures padding[0] == 0 <==> forall i :: 0 <= i < |padding| ==> padding[i] == 0
  {}

  lemma NotSplat(padding: seq<int>)
    requires !AllEqual(padding)
    ensures !forall i :: 0 <= i < |padding| ==> padding[i] == 0
  {}

  lemma SpansDimIs(shape: seq<nat>, w: Window, dim: nat)
    requires |shape| == |w.dims| && |w.padding| == 2 * |shape|
    ensures SpansDim(shape, w, dim) <==>
      && dim < |shape| && w.dims[dim] == shape[dim] > 1
      && (forall d :: 0 <= d < |shape| && d != dim ==> w.dims[d] == 1)
      && forall i :: 0 <= i < |w.padding| ==> w.padding[i] == if i == 2 * dim then shape[dim] - 1 else 0
  {}

  lemma FirstUnitAccepts(shape: seq<nat>, dim: nat)
    ensures FirstUnitDim(shape) == Accepted(dim) <==> dim < |shape| && shape[dim] == 1 && forall d :: 0 <= d < dim ==> shape[d] != 1
  {
    if dim < |shape| && shape[dim] == 1 && forall d :: 0 <= d < dim ==> shape[d] != 1 {
      FirstUnitDimIs(shape, dim);
    }
  }

  // One dimension at most is spanned, and then the padding is not splat.
  lemma SpannedOnce(shape: seq<nat>, w: Window, dim: nat)
    requires |shape| > 0 && Positive(w.dims, |shape|) && |w.padding| == 2 * |shape|
    ensures SpansDim(shape, w, dim) ==> !AllEqual(w.padding) && !AllOnes(w.dims)
    ensures SpansDim(shape, w, dim) ==> forall d: nat :: SpansDim(shape, w, d) ==> d == dim
  {
    if SpansDim(shape, w, dim) {
      assert w.padding[2 * dim] > 0 && w.padding[2 * dim + 1] == 0 && w.dims[dim] > 1;
      forall d: nat | SpansDim(shape, w, d)
        ensures d == dim
      {
        assert w.dims[d] > 1;
      }
    }
  }

  // A window of 1 over two elements with one padding element: refused, after the stray read.
  method UnassignedDimensionIsRead(stray: int) returns (v: Verdict)
    ensures v == Refused(true)
  {
    var w := Window([1], None, None, None, [1, 0]);
    assert w.padding[0] != w.padding[1];
    v := IsCumSum([2], w, stray);
  }

  // ---- what the all-ones checks accept ----

  predicate InInt32(s: seq<int>) {
    forall i :: 0 <= i < |s| ==> -0x8000_0000 <= s[i] < 0x8000_0000
  }

  predicate AllOnes(s: seq<int>) {
    forall i :: 0 <= i < |s| ==> s[i] == 1
  }

  // The all-ones checks accept exactly the values congruent to 1 modulo 2^32, which for 32-bit values is 1.
  lemma OnesChecked(s: seq<int>)
    ensures AllOnes32(s) <==> forall i :: 0 <= i < |s| ==> s[i] % 0x1_0000_0000 == 1
    ensures InInt32(s) ==> (AllOnes32(s) <==> AllOnes(s))
  {
    forall i | 0 <= i < |s|
      ensures ToInt32(s[i]) == 1 <==> s[i] % 0x1_0000_0000 == 1
    {}
  }

  // A stride of 2^32 + 1 passes the all-ones check, although the op then drops an element: it is no
  // prefix sum of any input.
  lemma WideStrideAccepted(input: Tensor)
    requires input.shape == [1, 2]
    ensures var w := Window([1, 1], Some([1, 0x1_0000_0001]), None, None, [0, 0, 0, 0]);
            Accepts(input.shape, w, 0) && !Agrees(input, w, 0)
  {
    var w := Window([1, 1], Some([1, 0x1_0000_0001]), None, None, [0, 0, 0, 0]);
    FirstUnitDimIs([1, 2], 0);
    assert ResultDim(2, 1, 0x1_0000_0001, 1, 1, 0, 0) == 1;
    assert ResultShape([1, 2], w)[1] == 1;
  }
}
