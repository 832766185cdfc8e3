/** Implicit broadcasting of the elementwise conversion in `TTIRToLinalg.cpp`: collapse the size-1
    dimensions away, then linalg.broadcast. */
module Broadcast {
  import opened Shapes
  import opened Permutations
  import opened Tensors

  // Right-aligned broadcasting: every input dimension equals its target dimension or is 1.
  predicate Broadcastable(shape: seq<nat>, target: seq<nat>) {
    && |shape| <= |target|
    && forall i :: 0 <= i < |shape| ==> shape[i] == target[|target| - |shape| + i] || shape[i] == 1
  }

  // The input element broadcasting puts at target index `idx`.
  function SourceIndex(shape: seq<nat>, idx: seq<nat>): seq<nat>
    requires |shape| <= |idx|
  {
    seq(|shape|, i requires 0 <= i < |shape| => if shape[i] == 1 then 0 else idx[|idx| - |shape| + i])
  }

  // ---- the ops the conversion emits ----

  function GroupShape(shape: seq<nat>, groups: seq<seq<nat>>): seq<nat>
    requires forall g :: 0 <= g < |groups| ==> InRange(groups[g], |shape|)
  {
    seq(|groups|, g requires 0 <= g < |groups| => Prod(Apply(shape, groups[g])))
  }

  function Flatten(groups: seq<seq<nat>>): seq<nat> {
    if groups == [] then [] else Flatten(groups[..|groups| - 1]) + groups[|groups| - 1]
  }

  // linalg.broadcast: `dims` are the dimensions of the result the input does not have.
  function LinalgBroadcast(t: Tensor, target: seq<nat>, dims: seq<nat>): (r: Tensor)
    requires t.Valid() && t.shape == Apply(target, Others(|target|, dims))
    ensures r.Valid() && r.shape == target
  {
    Build(target, (idx: seq<nat>) => if |idx| == |target| then At(t, Apply(idx, Others(|target|, dims))) else 0)
  }

  lemma AtLinalgBroadcast(t: Tensor, target: seq<nat>, dims: seq<nat>, idx: seq<nat>)
    requires t.Valid() && t.shape == Apply(target, Others(|target|, dims)) && InShape(idx, target)
    ensures At(LinalgBroadcast(t, target, dims), idx) == At(t, Apply(idx, Others(|target|, dims)))
  {
    AtBuild(target, (idx: seq<nat>) => if |idx| == |target| then At(t, Apply(idx, Others(|target|, dims))) else 0, idx);
  }

  // ---- keeping the dimensions a mask selects ----

  function Keep(s: seq<nat>, mask: seq<bool>): (r: seq<nat>)
    requires |s| == |mask|
    ensures |r| <= |s|
  {
    if s == [] then []
    else
      var n := |s| - 1;
      Keep(s[..n], mask[..n]) + if mask[n] then [s[n]] else []
  }

  lemma KeepLast(s: seq<nat>, mask: seq<bool>)
    requires |s| == |mask| > 0
    ensures Keep(s, mask) == Keep(s[..|s| - 1], mask[..|s| - 1]) + if mask[|s| - 1] then [s[|s| - 1]] else []
  {}

  lemma KeepAppend(s: seq<nat>, mask: seq<bool>, x: nat, b: bool)
    requires |s| == |mask|
    ensures Keep(s + [x], mask + [b]) == Keep(s, mask) + if b then [x] else []
  {
    assert (s + [x])[..|s|] == s && (mask + [b])[..|s|] == mask;
  }

  lemma {:induction false} KeepAll(s: seq<nat>, mask: seq<bool>)
    requires |s| == |mask|
    ensures |Keep(s, mask)| == |s| <==> forall i :: 0 <= i < |mask| ==> mask[i]
    ensures |Keep(s, mask)| == |s| ==> Keep(s, mask) == s
  {
    if s != [] {
      var n := |s| - 1;
      KeepAll(s[..n], mask[..n]);
      assert forall i :: 0 <= i < n ==> mask[..n][i] == mask[i];
      assert s == s[..n] + [s[n]];
    }
  }

  // Dropping size-1 dimensions changes neither the element count nor the row-major position.
  lemma {:induction false} KeepLin(shape: seq<nat>, idx: seq<nat>, mask: seq<bool>)
    requires InShape(idx, shape) && |mask| == |shape|
    requires forall i :: 0 <= i < |shape| ==> mask[i] || shape[i] == 1
    ensures InShape(Keep(idx, mask), Keep(shape, mask))
    ensures Lin(Keep(shape, mask), Keep(idx, mask)) == Lin(shape, idx)
  {
    if shape == [] {
      assert Keep(shape, mask) == shape && Keep(idx, mask) == idx;
    } else {
      hide Keep, Lin, Prod;
      var n := |shape| - 1;
      var s, i, m := shape[..n], idx[..n], mask[..n];
      KeepLin(s, i, m);
      KeepLast(shape, mask);
      KeepLast(idx, mask);
      assert shape == s + [shape[n]] && idx == i + [idx[n]];
      KeepLinStep(s, i, Keep(s, m), Keep(i, m), shape[n], idx[n], mask[n]);
      assert InShape(Keep(idx, mask), Keep(shape, mask)) && Lin(Keep(shape, mask), Keep(idx, mask)) == Lin(shape, idx);
    }
  }

  lemma KeepLinStep(s: seq<nat>, i: seq<nat>, ks: seq<nat>, ki: seq<nat>, n: nat, k: nat, keep: bool)
    requires InShape(i, s) && InShape(ki, ks) && Lin(ks, ki) == Lin(s, i) && k < n && (keep || n == 1)
    ensures InShape(i + [k], s + [n])
    ensures InShape(ki + (if keep then [k] else []), ks + if keep then [n] else [])
    ensures Lin(s + [n], i + [k]) == Lin(ks + (if keep then [n] else []), ki + if keep then [k] else [])
  {
    hide Lin, Prod;
    LinAppend(s, i, n, k);
    if keep {
      LinAppend(ks, ki, n, k);
    } else {
      assert ks + [] == ks && ki + [] == ki;
    }
  }

  lemma {:induction false} KeepProd(shape: seq<nat>, mask: seq<bool>)
    requires |mask| == |shape|
    requires forall i :: 0 <= i < |shape| ==> mask[i] || shape[i] == 1
    ensures Prod(Keep(shape, mask)) == Prod(shape)
  {
    if shape == [] {
      assert Keep(shape, mask) == shape;
    } else {
      hide Keep, Prod;
      var n := |shape| - 1;
      var s, m := shape[..n], mask[..n];
      KeepProd(s, m);
      KeepLast(shape, mask);
      assert shape == s + [shape[n]];
      KeepProdStep(s, Keep(s, m), shape[n], mask[n]);
      assert Prod(Keep(shape, mask)) == Prod(shape);
    }
  }

  lemma KeepProdStep(s: seq<nat>, ks: seq<nat>, n: nat, keep: bool)
    requires Prod(ks) == Prod(s) && (keep || n == 1)
    ensures Prod(s + [n]) == Prod(ks + if keep then [n] else [])
  {
    hide Prod;
    ProdAppend(s, n);
    if keep {
      ProdAppend(ks, n);
    } else {
      assert ks + [] == ks;
    }
  }

  // The kept dimensions are the ones outside the broadcast list.
  lemma {:induction false} OthersKeep(s: seq<nat>, dims: seq<nat>, mask: seq<bool>)
    requires |mask| == |s| && forall d: nat :: d < |s| ==> (mask[d] <==> d !in dims)
    ensures Apply(s, Others(|s|, dims)) == Keep(s, mask)
  {
    if s != [] {
      var n := |s| - 1;
      OthersKeep(s[..n], dims, mask[..n]);
      assert Apply(s[..n], Others(n, dims)) == Apply(s, Others(n, dims));
    }
  }

  lemma {:induction false} KeepPadded(s: seq<nat>, mask: seq<bool>, full: seq<bool>)
    requires |mask| <= |s| == |full|
    requires forall d :: 0 <= d < |s| - |mask| ==> !full[d]
    requires forall i :: 0 <= i < |mask| ==> full[|s| - |mask| + i] == mask[i]
    ensures Keep(s, full) == Keep(s[|s| - |mask|..], mask)
  {
    var n, k := |s| - 1, |s| - |mask|;
    if mask == [] {
      KeepNone(s, full);
      assert s[k..] == [];
    } else {
      hide Keep;
      KeepPadded(s[..n], mask[..|mask| - 1], full[..n]);
      KeepLast(s, full);
      KeepLast(s[k..], mask);
      assert s[..n][k..] == s[k..][..|mask| - 1];
      assert Keep(s, full) == Keep(s[k..], mask);
    }
  }

  lemma {:induction false} KeepNone(s: seq<nat>, mask: seq<bool>)
    requires |mask| == |s| && forall d :: 0 <= d < |s| ==> !mask[d]
    ensures Keep(s, mask) == []
  {
    if s != [] {
      KeepNone(s[..|s| - 1], mask[..|s| - 1]);
    }
  }

  // ---- the conversion ----

  function KeptMask(shape: seq<nat>, target: seq<nat>): (mask: seq<bool>)
    requires |shape| <= |target|
    ensures |mask| == |shape|
  {
    seq(|shape|, i requires 0 <= i < |shape| => shape[i] == target[|target| - |shape| + i])
  }

  // `getBroadcastDims`.
  method GetBroadcastDims(inputShape: seq<nat>, targetShape: seq<nat>) returns (broadcastDims: seq<nat>)
    requires |inputShape| <= |targetShape|
    ensures AreBroadcastDims(broadcastDims, inputShape, targetShape)
  {
    var sizeDiff := |targetShape| - |inputShape|;
    var paddedInput := seq(sizeDiff, _ => 1) + inputShape;
    broadcastDims := [];
    for i := 0 to |targetShape|
      invariant Ascending(broadcastDims) && InRange(broadcastDims, i)
      invariant forall d: nat :: d in broadcastDims <==> d < i && (d < sizeDiff || inputShape[d - sizeDiff] != targetShape[d])
    {
      if i < sizeDiff || paddedInput[i] != targetShape[i] {
        broadcastDims := broadcastDims + [i];
      }
    }
  }

  // Groups covering 0..upto in consecutive non-empty runs.
  ghost predicate ConsecutiveRuns(groups: seq<seq<nat>>, upto: nat) {
    && Flatten(groups) == Interval(0, upto)
    && forall g :: 0 <= g < |groups| ==> groups[g] != []
  }

  ghost predicate GroupsInRange(groups: seq<seq<nat>>, n: nat) {
    forall g :: 0 <= g < |groups| ==> InRange(groups[g], n)
  }

  // The loop state of `getCollapseDims` after `k` input dimensions: the finished groups collapse to
  // the kept dimensions so far, the unfinished one has only size-1 dimensions.
  ghost predicate CollapseState(shape: seq<nat>, mask: seq<bool>, groups: seq<seq<nat>>, pending: seq<nat>, k: nat) {
    && |mask| == |shape| && k <= |shape|
    && GroupsInRange(groups, |shape|) && InRange(pending, |shape|)
    && (forall g :: 0 <= g < |groups| ==> groups[g] != [])
    && Flatten(groups) + pending == Interval(0, k)
    && GroupShape(shape, groups) == Keep(shape[..k], mask[..k])
    && Prod(Apply(shape, pending)) == 1
  }

  lemma FlattenAppend(groups: seq<seq<nat>>, g: seq<nat>)
    ensures Flatten(groups + [g]) == Flatten(groups) + g
  {
    assert (groups + [g])[..|groups|] == groups;
  }

  lemma ProdApplyAppend(shape: seq<nat>, a: seq<nat>, b: seq<nat>)
    requires InRange(a, |shape|) && InRange(b, |shape|)
    ensures Prod(Apply(shape, a + b)) == Prod(Apply(shape, a)) * Prod(Apply(shape, b))
  {
    assert Apply(shape, a + b) == Apply(shape, a) + Apply(shape, b);
    ProdConcat(Apply(shape, a), Apply(shape, b));
  }

  // A kept dimension closes the group.
  lemma CollapseKept(shape: seq<nat>, mask: seq<bool>, groups: seq<seq<nat>>, pending: seq<nat>, k: nat)
    requires CollapseState(shape, mask, groups, pending, k) && k < |shape| && mask[k]
    ensures CollapseState(shape, mask, groups + [pending + [k]], [], k + 1)
  {
    hide Prod, Flatten, Keep;
    var longer := pending + [k];
    GroupGrown(shape, groups, pending, k);
    assert shape[..k + 1] == shape[..k] + [shape[k]] && mask[..k + 1] == mask[..k] + [mask[k]];
    KeepAppend(shape[..k], mask[..k], shape[k], mask[k]);
    assert GroupShape(shape, groups + [longer]) == GroupShape(shape, groups) + [shape[k]];
    FlattenAppend(groups, longer);
    assert Flatten(groups) + longer + [] == Flatten(groups) + longer;
    ProdEmpty();
    assert Apply(shape, []) == [];
  }

  // A dropped dimension, of size 1, waits for the next kept one.
  lemma CollapseDropped(shape: seq<nat>, mask: seq<bool>, groups: seq<seq<nat>>, pending: seq<nat>, k: nat)
    requires CollapseState(shape, mask, groups, pending, k) && k < |shape| && !mask[k] && shape[k] == 1
    ensures CollapseState(shape, mask, groups, pending + [k], k + 1)
  {
    hide Prod, Flatten, Keep;
    GroupGrown(shape, groups, pending, k);
    assert shape[..k + 1] == shape[..k] + [shape[k]] && mask[..k + 1] == mask[..k] + [mask[k]];
    KeepAppend(shape[..k], mask[..k], shape[k], mask[k]);
  }

  lemma GroupGrown(shape: seq<nat>, groups: seq<seq<nat>>, pending: seq<nat>, k: nat)
    requires InRange(pending, |shape|) && k < |shape| && Prod(Apply(shape, pending)) == 1
    requires Flatten(groups) + pending == Interval(0, k)
    ensures Prod(Apply(shape, pending + [k])) == shape[k]
    ensures Flatten(groups) + (pending + [k]) == Interval(0, k + 1)
  {
    hide Prod, Flatten;
    assert Apply(shape, pending + [k]) == Apply(shape, pending) + [shape[k]];
    ProdAppend(Apply(shape, pending), shape[k]);
    IntervalGrown(Flatten(groups), pending, k);
  }

  lemma IntervalGrown(flat: seq<nat>, pending: seq<nat>, k: nat)
    requires flat + pending == Interval(0, k)
    ensures flat + (pending + [k]) == Interval(0, k + 1)
  {
    assert flat + (pending + [k]) == (flat + pending) + [k];
  }

  // The finished groups: consecutive runs of all dimensions; when some dimension is kept there is one
  // group per kept dimension, and it collapses to that dimension.
  ghost predicate CollapsesTo(groups: seq<seq<nat>>, shape: seq<nat>, kept: seq<nat>) {
    && ConsecutiveRuns(groups, |shape|)
    && GroupsInRange(groups, |shape|)
    && (kept != [] ==> GroupShape(shape, groups) == kept)
  }

  lemma CollapseDone(shape: seq<nat>, mask: seq<bool>, groups: seq<seq<nat>>)
    requires CollapseState(shape, mask, groups, [], |shape|)
    ensures CollapsesTo(groups, shape, Keep(shape, mask))
  {
    assert shape[..|shape|] == shape && mask[..|shape|] == mask;
    assert Flatten(groups) + [] == Flatten(groups);
  }

  lemma CollapseNothingKept(shape: seq<nat>, mask: seq<bool>, pending: seq<nat>)
    requires CollapseState(shape, mask, [], pending, |shape|) && pending != []
    ensures CollapsesTo([pending], shape, Keep(shape, mask))
  {
    assert shape[..|shape|] == shape && mask[..|shape|] == mask;
    FlattenAppend([], pending);
    assert |GroupShape(shape, [])| == 0;
    assert [] + [pending] == [pending];
  }

  // Appending the leftover size-1 dimensions to the last group.
  lemma CollapseTail(shape: seq<nat>, mask: seq<bool>, groups: seq<seq<nat>>, pending: seq<nat>)
    requires CollapseState(shape, mask, groups, pending, |shape|) && groups != []
    ensures CollapsesTo(groups[|groups| - 1 := groups[|groups| - 1] + pending], shape, Keep(shape, mask))
  {
    var n := |groups| - 1;
    var longer := groups[n := groups[n] + pending];
    assert shape[..|shape|] == shape && mask[..|shape|] == mask;
    assert longer[..n] == groups[..n];
    assert Flatten(longer) == Flatten(groups) + pending;
    hide Keep, Flatten, Prod, Apply, Interval;
    ProdApplyAppend(shape, groups[n], pending);
    assert GroupShape(shape, longer) == GroupShape(shape, groups);
  }

  // While groups are collected: the finished ones end with their only kept dimension.
  ghost predicate EndsKept(groups: seq<seq<nat>>, pending: seq<nat>, mask: seq<bool>) {
    && (forall g, k :: 0 <= g < |groups| && 0 <= k < |groups[g]| ==> groups[g][k] < |mask| && (mask[groups[g][k]] <==> k == |groups[g]| - 1))
    && (forall k :: 0 <= k < |pending| ==> pending[k] < |mask| && !mask[pending[k]])
  }

  // In the end: every group but the last ends with its only kept dimension; the last has one too,
  // unless none is kept.
  ghost predicate HoldsOneKept(groups: seq<seq<nat>>, mask: seq<bool>) {
    && (forall g, k :: 0 <= g < |groups| && 0 <= k < |groups[g]| ==> groups[g][k] < |mask|)
    && (forall g, k :: 0 <= g < |groups| - 1 && 0 <= k < |groups[g]| ==> (mask[groups[g][k]] <==> k == |groups[g]| - 1))
    && (forall g, j, k :: 0 <= g < |groups| && 0 <= j < k < |groups[g]| ==> !(mask[groups[g][j]] && mask[groups[g][k]]))
    && (|groups| > 1 ==> exists d :: d in groups[|groups| - 1] && d < |mask| && mask[d])
  }

  lemma TailHoldsOneKept(groups: seq<seq<nat>>, pending: seq<nat>, mask: seq<bool>)
    requires EndsKept(groups, pending, mask) && groups != [] && groups[|groups| - 1] != []
    ensures HoldsOneKept(groups[|groups| - 1 := groups[|groups| - 1] + pending], mask)
  {
    var n := |groups| - 1;
    var m := |groups[n]| - 1;
    var last := groups[n] + pending;
    var longer := groups[n := last];
    assert last[m] == groups[n][m] && mask[last[m]] && last[m] in last;
    forall g, k | 0 <= g < |longer| && 0 <= k < |longer[g]|
      ensures longer[g][k] < |mask|
      ensures g < n ==> (mask[longer[g][k]] <==> k == |longer[g]| - 1)
      ensures g == n ==> (mask[longer[g][k]] <==> k == m)
    {
      if g == n && k > m {
        assert longer[g][k] == pending[k - m - 1];
      }
    }
  }

  lemma LastIsNotEmpty(shape: seq<nat>, mask: seq<bool>, groups: seq<seq<nat>>, pending: seq<nat>, k: nat)
    requires CollapseState(shape, mask, groups, pending, k) && groups != []
    ensures groups[|groups| - 1] != []
  {}

  // `getCollapseDims`.
  method GetCollapseDims(inputShape: seq<nat>, targetShape: seq<nat>) returns (reassocIndexes: seq<seq<nat>>)
    requires Broadcastable(inputShape, targetShape)
    ensures CollapsesTo(reassocIndexes, inputShape, Keep(inputShape, KeptMask(inputShape, targetShape)))
    ensures HoldsOneKept(reassocIndexes, KeptMask(inputShape, targetShape))
  {
    hide Keep, Prod, Flatten, CollapsesTo, CollapseState;
    var sizeDiff := |targetShape| - |inputShape|;
    var paddedInput := seq(sizeDiff, _ => 1) + inputShape;
    ghost var mask := KeptMask(inputShape, targetShape);
    var collapseDims: seq<nat> := [];
    reassocIndexes := [];
    CollapseStart(inputShape, mask);
    for i := sizeDiff to |targetShape|
      invariant CollapseState(inputShape, mask, reassocIndexes, collapseDims, i - sizeDiff)
      invariant EndsKept(reassocIndexes, collapseDims, mask)
    {
      if mask[i - sizeDiff] {
        CollapseKept(inputShape, mask, reassocIndexes, collapseDims, i - sizeDiff);
      } else {
        CollapseDropped(inputShape, mask, reassocIndexes, collapseDims, i - sizeDiff);
      }
      collapseDims := collapseDims + [i - sizeDiff];
      if paddedInput[i] == targetShape[i] {
        reassocIndexes := reassocIndexes + [collapseDims];
        collapseDims := [];
      }
    }
    if collapseDims != [] {
      if reassocIndexes == [] {
        CollapseNothingKept(inputShape, mask, collapseDims);
        reassocIndexes := [collapseDims];
      } else {
        CollapseTail(inputShape, mask, reassocIndexes, collapseDims);
        LastIsNotEmpty(inputShape, mask, reassocIndexes, collapseDims, |inputShape|);
        TailHoldsOneKept(reassocIndexes, collapseDims, mask);
        var n := |reassocIndexes| - 1;
        reassocIndexes := reassocIndexes[n := reassocIndexes[n] + collapseDims];
      }
    } else {
      CollapseDone(inputShape, mask, reassocIndexes);
      if reassocIndexes != [] {
        LastIsNotEmpty(inputShape, mask, reassocIndexes, [], |inputShape|);
        TailHoldsOneKept(reassocIndexes, [], mask);
        assert reassocIndexes[|reassocIndexes| - 1] + [] == reassocIndexes[|reassocIndexes| - 1];
        assert reassocIndexes[|reassocIndexes| - 1 := reassocIndexes[|reassocIndexes| - 1]] == reassocIndexes;
      }
    }
  }

  lemma CollapseStart(shape: seq<nat>, mask: seq<bool>)
    requires |mask| == |shape|
    ensures CollapseState(shape, mask, [], [], 0)
  {
    assert Apply(shape, []) == [];
  }

  lemma {:induction false} KeepAgree(s: seq<nat>, t: seq<nat>, mask: seq<bool>)
    requires |s| == |t| == |mask|
    requires forall i :: 0 <= i < |s| && mask[i] ==> s[i] == t[i]
    ensures Keep(s, mask) == Keep(t, mask)
  {
    if s != [] {
      var n := |s| - 1;
      KeepAgree(s[..n], t[..n], mask[..n]);
    }
  }

  // What `GetBroadcastDims` promises of its result.
  ghost predicate AreBroadcastDims(dims: seq<nat>, shape: seq<nat>, target: seq<nat>)
    requires |shape| <= |target|
  {
    && Ascending(dims) && InRange(dims, |target|)
    && forall d: nat :: d in dims <==>
         d < |target| && (d < |target| - |shape| || shape[d - (|target| - |shape|)] != target[d])
  }

  // That is, all dimensions the input does not have or has in another size, ascending.
  lemma BroadcastDimsAre(dims: seq<nat>, shape: seq<nat>, target: seq<nat>)
    requires |shape| <= |target| && AreBroadcastDims(dims, shape, target)
    ensures forall i, j :: 0 <= i < j < |dims| ==> dims[i] < dims[j]
    ensures forall d: nat :: d in dims <==>
      d < |target| && (d < |target| - |shape| || shape[d - (|target| - |shape|)] != target[d])
  {}

  // Dropping the broadcast dimensions of a list over the target is keeping the kept ones of its
  // right-aligned tail.
  lemma DropBroadcastDims(s: seq<nat>, dims: seq<nat>, shape: seq<nat>, target: seq<nat>)
    requires |shape| <= |target| == |s| && AreBroadcastDims(dims, shape, target)
    ensures Apply(s, Others(|target|, dims)) == Keep(s[|target| - |shape|..], KeptMask(shape, target))
  {
    hide Apply, Others, Keep;
    var full := seq(|target|, d requires 0 <= d < |target| => d !in dims);
    OthersKeep(s, dims, full);
    KeepPadded(s, KeptMask(shape, target), full);
  }

  lemma BroadcastShape(shape: seq<nat>, target: seq<nat>, dims: seq<nat>)
    requires Broadcastable(shape, target) && AreBroadcastDims(dims, shape, target)
    ensures Apply(target, Others(|target|, dims)) == Keep(shape, KeptMask(shape, target))
    ensures |dims| == |target| <==> Keep(shape, KeptMask(shape, target)) == []
    ensures dims == [] ==> shape == target
  {
    hide Keep, Others, Apply, AreBroadcastDims, KeptMask;
    TailAgrees(shape, target);
    DropBroadcastDims(target, dims, shape, target);
    AreDistinct(dims, shape, target);
    OthersLength(|target|, dims);
    if dims == [] {
      NothingBroadcast(dims, shape, target);
    }
  }

  lemma TailAgrees(shape: seq<nat>, target: seq<nat>)
    requires |shape| <= |target|
    ensures Keep(shape, KeptMask(shape, target)) == Keep(target[|target| - |shape|..], KeptMask(shape, target))
  {
    hide Keep;
    KeepAgree(shape, target[|target| - |shape|..], KeptMask(shape, target));
  }

  lemma AreDistinct(dims: seq<nat>, shape: seq<nat>, target: seq<nat>)
    requires |shape| <= |target| && AreBroadcastDims(dims, shape, target)
    ensures Distinct(dims) && InRange(dims, |target|)
  {}

  lemma NothingBroadcast(dims: seq<nat>, shape: seq<nat>, target: seq<nat>)
    requires |shape| <= |target| && AreBroadcastDims(dims, shape, target) && dims == []
    ensures shape == target
  {
    assert |shape| < |target| ==> 0 in dims;
    forall i | 0 <= i < |shape|
      ensures shape[i] == target[i]
    {
      assert i !in dims;
    }
  }

  lemma SourceInShape(shape: seq<nat>, target: seq<nat>, idx: seq<nat>)
    requires Broadcastable(shape, target) && InShape(idx, target)
    ensures InShape(SourceIndex(shape, idx), shape)
    ensures Keep(idx[|target| - |shape|..], KeptMask(shape, target)) == Keep(SourceIndex(shape, idx), KeptMask(shape, target))
  {
    KeepAgree(idx[|target| - |shape|..], SourceIndex(shape, idx), KeptMask(shape, target));
  }

  // Collapsing the dropped dimensions keeps every element at its kept index.
  lemma CollapsedCell(input: Tensor, collapsed: Tensor, mask: seq<bool>, src: seq<nat>)
    requires input.Valid() && collapsed.data == input.data && |mask| == |input.shape| && InShape(src, input.shape)
    requires forall i :: 0 <= i < |mask| ==> mask[i] || input.shape[i] == 1
    requires collapsed.shape == Keep(input.shape, mask)
    ensures At(collapsed, Keep(src, mask)) == At(input, src)
  {
    KeepLin(input.shape, src, mask);
  }

  lemma BroadcastCell(input: Tensor, collapsed: Tensor, target: seq<nat>, dims: seq<nat>, idx: seq<nat>)
    requires input.Valid() && Broadcastable(input.shape, target) && AreBroadcastDims(dims, input.shape, target)
    requires collapsed.Valid() && collapsed.data == input.data && InShape(idx, target)
    requires collapsed.shape == Keep(input.shape, KeptMask(input.shape, target))
    requires collapsed.shape == Apply(target, Others(|target|, dims))
    ensures At(LinalgBroadcast(collapsed, target, dims), idx) == At(input, SourceIndex(input.shape, idx))
  {
    hide Keep, Others, Apply, At, LinalgBroadcast, Lin, Prod, SourceIndex, AreBroadcastDims;
    AtLinalgBroadcast(collapsed, target, dims, idx);
    DropBroadcastDims(idx, dims, input.shape, target);
    SourceInShape(input.shape, target, idx);
    CollapsedCell(input, collapsed, KeptMask(input.shape, target), SourceIndex(input.shape, idx));
  }

  // linalg.broadcast of the collapsed operand is right-aligned broadcasting.
  lemma BroadcastCells(input: Tensor, collapsed: Tensor, target: seq<nat>, dims: seq<nat>)
    requires input.Valid() && Broadcastable(input.shape, target) && AreBroadcastDims(dims, input.shape, target)
    requires collapsed.Valid() && collapsed.data == input.data
    requires collapsed.shape == Keep(input.shape, KeptMask(input.shape, target))
    requires collapsed.shape == Apply(target, Others(|target|, dims))
    ensures IsBroadcast(LinalgBroadcast(collapsed, target, dims), input, target)
  {
    hide Keep, Others, Apply, At, LinalgBroadcast, Lin, Prod, SourceIndex, AreBroadcastDims, KeptMask;
    forall idx | InShape(idx, target)
      ensures At(LinalgBroadcast(collapsed, target, dims), idx) == At(input, SourceIndex(input.shape, idx))
    {
      BroadcastCell(input, collapsed, target, dims, idx);
    }
  }

  // `r` is the input broadcast to the target shape, right-aligned.
  ghost predicate IsBroadcast(r: Tensor, input: Tensor, target: seq<nat>)
    requires |input.shape| <= |target|
  {
    && r.Valid() && r.shape == target
    && forall idx :: InShape(idx, target) ==> At(r, idx) == At(input, SourceIndex(input.shape, idx))
  }

  lemma SameShapeIsBroadcast(input: Tensor)
    requires input.Valid()
    ensures IsBroadcast(input, input, input.shape)
  {
    forall idx | InShape(idx, input.shape)
      ensures SourceIndex(input.shape, idx) == idx
    {}
  }

  // What the groups collapse the operand to, and when there is nothing to collapse.
  lemma GroupsCollapse(shape: seq<nat>, target: seq<nat>, dims: seq<nat>, groups: seq<seq<nat>>)
    requires Broadcastable(shape, target) && AreBroadcastDims(dims, shape, target)
    requires if |dims| == |target| then groups == [] else CollapsesTo(groups, shape, Keep(shape, KeptMask(shape, target)))
    ensures |shape| <= |target| && forall g :: 0 <= g < |groups| ==> InRange(groups[g], |shape|)
    ensures GroupShape(shape, groups) == Keep(shape, KeptMask(shape, target)) && Prod(GroupShape(shape, groups)) == Prod(shape)
    ensures |groups| == |shape| ==> Keep(shape, KeptMask(shape, target)) == shape
  {
    hide Keep, Prod, AreBroadcastDims, KeptMask, CollapsesTo, GroupShape;
    KeptProd(shape, target);
    BroadcastShape(shape, target, dims);
    if groups == [] && |dims| == |target| {
      NoGroupShape(shape);
    } else {
      CollapsedTo(groups, shape, Keep(shape, KeptMask(shape, target)));
    }
    GroupCount(shape, groups);
    KeepAll(shape, KeptMask(shape, target));
  }

  lemma KeptProd(shape: seq<nat>, target: seq<nat>)
    requires Broadcastable(shape, target)
    ensures |shape| <= |target| && Prod(Keep(shape, KeptMask(shape, target))) == Prod(shape)
  {
    hide Keep, Prod;
    KeepProd(shape, KeptMask(shape, target));
  }

  lemma NoGroupShape(shape: seq<nat>)
    ensures GroupShape(shape, []) == []
  {}

  lemma GroupCount(shape: seq<nat>, groups: seq<seq<nat>>)
    requires forall g :: 0 <= g < |groups| ==> InRange(groups[g], |shape|)
    ensures |GroupShape(shape, groups)| == |groups|
  {
    hide Prod, Apply;
  }

  lemma CollapsedTo(groups: seq<seq<nat>>, shape: seq<nat>, kept: seq<nat>)
    requires CollapsesTo(groups, shape, kept) && kept != []
    ensures (forall g :: 0 <= g < |groups| ==> InRange(groups[g], |shape|)) && GroupShape(shape, groups) == kept
  {
    hide GroupShape, Flatten;
  }

  // The part of `matchAndRewrite` that rewrites one operand to the broadcasted shape.
  method BroadcastOperand(input: Tensor, target: seq<nat>) returns (result: Tensor)
    requires input.Valid() && Broadcastable(input.shape, target)
    ensures IsBroadcast(result, input, target)
  {
    var broadcastDims := GetBroadcastDims(input.shape, target);
    hide Keep, Others, Apply, At, Lin, Prod, SourceIndex, HoldsOneKept, AreBroadcastDims, KeptMask, CollapsesTo, IsBroadcast,
      LinalgBroadcast, Broadcastable, GroupShape;
    var collapseDimGroups: seq<seq<nat>> := [];
    if |broadcastDims| != |target| {
      collapseDimGroups := GetCollapseDims(input.shape, target);
    }
    BroadcastShape(input.shape, target, broadcastDims);
    GroupsCollapse(input.shape, target, broadcastDims, collapseDimGroups);
    if broadcastDims != [] {
      var broadcastInput := input;
      if |collapseDimGroups| != |input.shape| {
        broadcastInput := Reshape(input, GroupShape(input.shape, collapseDimGroups));
      }
      BroadcastCells(input, broadcastInput, target, broadcastDims);
      result := LinalgBroadcast(broadcastInput, target, broadcastDims);
    } else {
      SameShapeIsBroadcast(input);
      result := input;
    }
  }

  // How many groups an operand is collapsed into: one per target dimension that is not broadcast.
  lemma CollapseGroupCount(shape: seq<nat>, target: seq<nat>, dims: seq<nat>, groups: seq<seq<nat>>)
    requires Broadcastable(shape, target) && AreBroadcastDims(dims, shape, target)
    requires CollapsesTo(groups, shape, Keep(shape, KeptMask(shape, target)))
    ensures |dims| != |target| ==> |groups| == |target| - |dims|
  {
    hide AreBroadcastDims;
    BroadcastShape(shape, target, dims);
    AreDistinct(dims, shape, target);
    OthersLength(|target|, dims);
  }
}
