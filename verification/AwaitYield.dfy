/**
 * `TTIRAwaitYieldRewriter` of `lib/Conversion/TTIRToTTKernel/TTIRToTTKernel.cpp`: where the circular
 * buffer primitives go in a block, and why the lowered block is one the threads can run.
 */
module AwaitYield {
  import opened CircularBuffers
  import opened Permutations

  /* The lowered block */

  function Waits(cbs: seq<nat>): seq<Instr> { seq(|cbs|, (i: nat) requires i < |cbs| => Wait(cbs[i])) }
  function PopsFor(cbs: seq<nat>): seq<Instr> { seq(|cbs|, (i: nat) requires i < |cbs| => Pop(cbs[i])) }
  function PushesFor(cbs: seq<nat>): seq<Instr> { seq(|cbs|, (i: nat) requires i < |cbs| => Push(cbs[i])) }

  // Each reserve goes to the front, so later values end up before earlier ones.
  function ReservesFor(cbs: seq<nat>): seq<Instr> {
    seq(|cbs|, (i: nat) requires i < |cbs| => Reserve(cbs[|cbs| - 1 - i]))
  }

  // What one op of the block becomes in place. In a function's own block the reserve of a yielded
  // buffer follows the op that defines the buffer.
  function Expand(x: Instr, inFunc: bool, yielded: set<nat>): seq<Instr> {
    match x
    case Await(cbs) => Waits(cbs)
    case Yield(cbs) => PushesFor(cbs)
    case Define(cb) => if inFunc && cb in yielded then [x, Reserve(cb)] else [x]
    case _ => [x]
  }

  function Body(block: seq<Instr>, lo: nat, hi: nat, inFunc: bool, yielded: set<nat>): seq<Instr>
    requires lo <= hi <= |block|
  {
    if lo == hi then [] else Body(block, lo, hi - 1, inFunc, yielded) + Expand(block[hi - 1], inFunc, yielded)
  }

  function FrontReserves(block: seq<Instr>, k: nat): seq<Instr>
    requires k <= |block|
  {
    if k == 0 then [] else (if block[k - 1].Yield? then ReservesFor(block[k - 1].cbs) else []) + FrontReserves(block, k - 1)
  }

  function EndPops(block: seq<Instr>, k: nat): seq<Instr>
    requires k <= |block|
  {
    if k == 0 then [] else EndPops(block, k - 1) + (if block[k - 1].Await? then PopsFor(block[k - 1].cbs) else [])
  }

  function Yielded(block: seq<Instr>, k: nat): set<nat>
    requires k <= |block|
  {
    if k == 0 then {} else Yielded(block, k - 1) + (if block[k - 1].Yield? then Elements(block[k - 1].cbs) else {})
  }

  // The block once its first k ops have been lowered.
  function Lowered(block: seq<Instr>, k: nat, inFunc: bool): seq<Instr>
    requires k < |block|
  {
    (if inFunc then [] else FrontReserves(block, k)) + Body(block, 0, k, inFunc, Yielded(block, k))
      + block[k..|block| - 1] + EndPops(block, k) + [block[|block| - 1]]
  }

  /* The blocks the rewriter is given */

  predicate Yields(x: Instr, b: nat) { x.Yield? && b in x.cbs }
  predicate Awaits(x: Instr, b: nat) { x.Await? && b in x.cbs }
  predicate Writes(x: Instr, b: nat) { x.Write? && x.cb == b }
  predicate ReadsFrom(x: Instr, b: nat) { x.Read? && x.cb == b }

  predicate NotLoweredYet(x: Instr) {
    !x.Wait? && !x.Pop? && !x.Reserve? && !x.Push?
  }

  // It ends in its one terminator, no primitive is there yet, and a buffer is yielded and awaited
  // at most once.
  ghost predicate IsInput(block: seq<Instr>, inFunc: bool) {
    && block != [] && block[|block| - 1] == Terminator
    && (forall i :: 0 <= i < |block| ==> NotLoweredYet(block[i]) && (block[i] == Terminator <==> i == |block| - 1))
    && (forall i :: 0 <= i < |block| && block[i].Yield? ==> Distinct(block[i].cbs))
    && (forall i :: 0 <= i < |block| && block[i].Await? ==> Distinct(block[i].cbs))
    && (forall i, j, b :: 0 <= i < j < |block| && Yields(block[i], b) ==> !Yields(block[j], b))
    && (forall i, j, b :: 0 <= i < j < |block| && Awaits(block[i], b) ==> !Awaits(block[j], b))
    && (inFunc ==> forall i, b :: 0 <= i < |block| && Yields(block[i], b) ==> DefinedBefore(block, b, i))
  }

  // In a function's own block a yielded buffer is an op's result, and uses follow that op.
  ghost predicate DefinedBefore(block: seq<Instr>, b: nat, i: nat) {
    exists d: nat :: d < i && IsAt(block, Define(b), d) && forall j :: 0 <= j < |block| && Writes(block[j], b) ==> d < j
  }

  // The op at i yields the buffer, and everything written to it is written before.
  ghost predicate YieldedAt(block: seq<Instr>, b: nat, i: nat) {
    i < |block| && Yields(block[i], b) && forall j :: 0 <= j < |block| && Writes(block[j], b) ==> j < i
  }

  // The op at i awaits the buffer, and everything read from it is read after.
  ghost predicate AwaitedAt(block: seq<Instr>, b: nat, i: nat) {
    i < |block| && Awaits(block[i], b) && forall j :: 0 <= j < |block| && ReadsFrom(block[j], b) ==> i < j
  }

  /* Occurrences */

  lemma {:induction false} BodyMember(block: seq<Instr>, lo: nat, hi: nat, inFunc: bool, yielded: set<nat>, x: Instr)
    requires lo <= hi <= |block|
    ensures x in Body(block, lo, hi, inFunc, yielded) <==> exists m :: lo <= m < hi && x in Expand(block[m], inFunc, yielded)
    decreases hi - lo
  {
    if lo < hi {
      BodyMember(block, lo, hi - 1, inFunc, yielded, x);
      if x in Expand(block[hi - 1], inFunc, yielded) {
      }
    }
  }

  lemma {:induction false} BodySplit(block: seq<Instr>, lo: nat, mid: nat, hi: nat, inFunc: bool, yielded: set<nat>)
    requires lo <= mid <= hi <= |block|
    ensures Body(block, lo, hi, inFunc, yielded) == Body(block, lo, mid, inFunc, yielded) + Body(block, mid, hi, inFunc, yielded)
    decreases hi - mid
  {
    if mid < hi {
      BodySplit(block, lo, mid, hi - 1, inFunc, yielded);
    }
  }

  lemma {:induction false} FrontMember(block: seq<Instr>, k: nat, x: Instr)
    requires k <= |block|
    ensures x in FrontReserves(block, k) <==> x.Reserve? && exists m :: 0 <= m < k && Yields(block[m], x.cb)
  {
    if k > 0 {
      FrontMember(block, k - 1, x);
      if block[k - 1].Yield? {
        ReservesMember(block[k - 1].cbs, x);
      }
    }
  }

  lemma ReservesMember(cbs: seq<nat>, x: Instr)
    ensures x in ReservesFor(cbs) <==> x.Reserve? && x.cb in cbs
  {
    if x.Reserve? && x.cb in cbs {
      var i :| 0 <= i < |cbs| && cbs[i] == x.cb;
      assert ReservesFor(cbs)[|cbs| - 1 - i] == x;
    }
  }

  lemma PopsMember(cbs: seq<nat>, x: Instr)
    ensures x in PopsFor(cbs) <==> x.Pop? && x.cb in cbs
  {
    if x.Pop? && x.cb in cbs {
      var i :| 0 <= i < |cbs| && cbs[i] == x.cb;
      assert PopsFor(cbs)[i] == x;
    }
  }

  lemma {:induction false} EndMember(block: seq<Instr>, k: nat, x: Instr)
    requires k <= |block|
    ensures x in EndPops(block, k) <==> x.Pop? && exists m :: 0 <= m < k && Awaits(block[m], x.cb)
  {
    if k > 0 {
      EndMember(block, k - 1, x);
      if block[k - 1].Await? {
        PopsMember(block[k - 1].cbs, x);
      }
    }
  }

  // What the expansion of an op contains.
  lemma ExpandMember(y: Instr, inFunc: bool, yielded: set<nat>, x: Instr)
    requires NotLoweredYet(y)
    ensures x in Expand(y, inFunc, yielded) <==>
      match x
      case Wait(b) => Awaits(y, b)
      case Push(b) => Yields(y, b)
      case Reserve(b) => y == Define(b) && inFunc && b in yielded
      case Await(_) => false
      case Yield(_) => false
      case _ => x == y
  {
    match y
    case Await(cbs) =>
      if x.Wait? && x.cb in cbs {
        var i :| 0 <= i < |cbs| && cbs[i] == x.cb;
        assert Waits(cbs)[i] == x;
      }
    case Yield(cbs) =>
      if x.Push? && x.cb in cbs {
        var i :| 0 <= i < |cbs| && cbs[i] == x.cb;
        assert PushesFor(cbs)[i] == x;
      }
    case _ =>
  }

  lemma PrimitivesOnce(cbs: seq<nat>, b: nat)
    requires Distinct(cbs) && b in cbs
    ensures Once(Waits(cbs), Wait(b)) && Once(PushesFor(cbs), Push(b)) && Once(PopsFor(cbs), Pop(b)) && Once(ReservesFor(cbs), Reserve(b))
  {
    var i :| 0 <= i < |cbs| && cbs[i] == b;
    assert IsAt(Waits(cbs), Wait(b), i) && IsAt(PushesFor(cbs), Push(b), i) && IsAt(PopsFor(cbs), Pop(b), i);
    assert IsAt(ReservesFor(cbs), Reserve(b), |cbs| - 1 - i);
  }

  /* Order in a concatenation */

  lemma OnceWithin(a: seq<Instr>, e: seq<Instr>, c: seq<Instr>, x: Instr)
    requires Once(e, x) && x !in a && x !in c
    ensures Once(a + e + c, x) && |a| <= At(a + e + c, x) < |a| + |e|
  {
    var s := a + e + c;
    var i: nat :| IsAt(e, x, i);
    assert IsAt(s, x, |a| + i);
    var k := At(s, x);
    assert s[|a| + i] == x;
  }

  /* Where things are in the lowered block */

  function Done(block: seq<Instr>, inFunc: bool): seq<Instr>
    requires block != []
  {
    Lowered(block, |block| - 1, inFunc)
  }

  function Front(block: seq<Instr>, inFunc: bool): seq<Instr>
    requires block != []
  {
    if inFunc then [] else FrontReserves(block, |block| - 1)
  }

  function Ys(block: seq<Instr>): set<nat>
    requires block != []
  {
    Yielded(block, |block| - 1)
  }

  // Where the expansion of the m-th op starts.
  function StartOf(block: seq<Instr>, inFunc: bool, m: nat): nat
    requires m < |block|
  {
    |Front(block, inFunc)| + |Body(block, 0, m, inFunc, Ys(block))|
  }

  lemma Parts(block: seq<Instr>, inFunc: bool, m: nat)
    requires m < |block|
    ensures var n := |block| - 1; var s := Done(block, inFunc); var at := StartOf(block, inFunc, m);
      && at <= |s| && s[..at] == Front(block, inFunc) + Body(block, 0, m, inFunc, Ys(block))
      && s[at..] == Body(block, m, n, inFunc, Ys(block)) + EndPops(block, n) + [block[n]]
  {
    hide Body, FrontReserves, EndPops, Expand, Yielded;
    var n := |block| - 1;
    BodySplit(block, 0, m, n, inFunc, Ys(block));
    assert block[n..n] == [];
    var f, a := Front(block, inFunc), Body(block, 0, m, inFunc, Ys(block));
    var c := Body(block, m, n, inFunc, Ys(block)) + EndPops(block, n) + [block[n]];
    assert Done(block, inFunc) == (f + a) + c;
  }

  lemma {:induction false} YieldedMember(block: seq<Instr>, k: nat, b: nat)
    requires k <= |block|
    ensures b in Yielded(block, k) <==> exists m :: 0 <= m < k && Yields(block[m], b)
  {
    if k > 0 {
      YieldedMember(block, k - 1, b);
    }
  }

  // What is before the expansion of the m-th op.
  lemma BeforeMember(block: seq<Instr>, inFunc: bool, m: nat, x: Instr)
    requires IsInput(block, inFunc) && m < |block|
    ensures StartOf(block, inFunc, m) <= |Done(block, inFunc)|
    ensures x in Done(block, inFunc)[..StartOf(block, inFunc, m)] <==>
      || (!inFunc && x.Reserve? && exists j :: 0 <= j < |block| && Yields(block[j], x.cb))
      || exists j :: 0 <= j < m && x in Expand(block[j], inFunc, Ys(block))
  {
    hide IsInput, Body, FrontReserves, EndPops, Expand, Lowered;
    Parts(block, inFunc, m);
    BodyMember(block, 0, m, inFunc, Ys(block), x);
    var n := |block| - 1;
    FrontMember(block, n, x);
    TerminatorYieldsNothing(block, inFunc);
  }

  lemma TerminatorYieldsNothing(block: seq<Instr>, inFunc: bool)
    requires IsInput(block, inFunc)
    ensures block != [] && block[|block| - 1] == Terminator
  {}

  // What is from the expansion of the m-th op on.
  lemma AfterMember(block: seq<Instr>, inFunc: bool, m: nat, x: Instr)
    requires IsInput(block, inFunc) && m < |block|
    ensures StartOf(block, inFunc, m) <= |Done(block, inFunc)|
    ensures x in Done(block, inFunc)[StartOf(block, inFunc, m)..] <==>
      || x == Terminator
      || (x.Pop? && exists j :: 0 <= j < |block| && Awaits(block[j], x.cb))
      || exists j :: m <= j < |block| - 1 && x in Expand(block[j], inFunc, Ys(block))
  {
    hide IsInput, Body, FrontReserves, EndPops, Expand, Lowered;
    Parts(block, inFunc, m);
    var n := |block| - 1;
    BodyMember(block, m, n, inFunc, Ys(block), x);
    EndMember(block, n, x);
    TerminatorYieldsNothing(block, inFunc);
  }

  lemma ExpandedOnce(block: seq<Instr>, inFunc: bool, m: nat, x: Instr)
    requires IsInput(block, inFunc) && m < |block| - 1 && Once(Expand(block[m], inFunc, Ys(block)), x)
    requires StartOf(block, inFunc, m) <= |Done(block, inFunc)| && StartOf(block, inFunc, m + 1) <= |Done(block, inFunc)|
    requires x !in Done(block, inFunc)[..StartOf(block, inFunc, m)]
    requires x !in Done(block, inFunc)[StartOf(block, inFunc, m + 1)..]
    ensures Once(Done(block, inFunc), x)
    ensures StartOf(block, inFunc, m) <= At(Done(block, inFunc), x) < StartOf(block, inFunc, m + 1)
  {
    hide IsInput, Body, FrontReserves, EndPops, Expand, Lowered, Once, At;
    var s := Done(block, inFunc);
    Parts(block, inFunc, m);
    Parts(block, inFunc, m + 1);
    var a, b := StartOf(block, inFunc, m), StartOf(block, inFunc, m + 1);
    BodyNext(block, m, inFunc, Ys(block));
    var e := Expand(block[m], inFunc, Ys(block));
    assert s == s[..b] + s[b..];
    assert s[..b] == s[..a] + e;
    OnceWithin(s[..a], e, s[b..], x);
  }

  lemma PushPlace(block: seq<Instr>, inFunc: bool, b: nat, i: nat)
    requires IsInput(block, inFunc) && i < |block| && Yields(block[i], b)
    ensures i < |block| - 1 && Once(Done(block, inFunc), Push(b))
    ensures StartOf(block, inFunc, i) <= At(Done(block, inFunc), Push(b)) < StartOf(block, inFunc, i + 1)
  {
    hide Body, FrontReserves, EndPops, Lowered, Once, At, StartOf, Done;
    PrimitivesOnce(block[i].cbs, b);
    BeforeMember(block, inFunc, i, Push(b));
    AfterMember(block, inFunc, i + 1, Push(b));
    forall j | 0 <= j < |block| - 1
      ensures Push(b) in Expand(block[j], inFunc, Ys(block)) <==> j == i
    {
      ExpandMember(block[j], inFunc, Ys(block), Push(b));
    }
    hide IsInput;
    ExpandedOnce(block, inFunc, i, Push(b));
  }

  lemma WaitPlace(block: seq<Instr>, inFunc: bool, b: nat, i: nat)
    requires IsInput(block, inFunc) && i < |block| && Awaits(block[i], b)
    ensures i < |block| - 1 && Once(Done(block, inFunc), Wait(b))
    ensures StartOf(block, inFunc, i) <= At(Done(block, inFunc), Wait(b)) < StartOf(block, inFunc, i + 1)
  {
    hide Body, FrontReserves, EndPops, Lowered, Once, At, StartOf, Done;
    PrimitivesOnce(block[i].cbs, b);
    BeforeMember(block, inFunc, i, Wait(b));
    AfterMember(block, inFunc, i + 1, Wait(b));
    forall j | 0 <= j < |block| - 1
      ensures Wait(b) in Expand(block[j], inFunc, Ys(block)) <==> j == i
    {
      ExpandMember(block[j], inFunc, Ys(block), Wait(b));
    }
    hide IsInput;
    ExpandedOnce(block, inFunc, i, Wait(b));
  }

  lemma {:induction false} FrontOnce(block: seq<Instr>, k: nat, b: nat, i: nat)
    requires i < k <= |block| && Yields(block[i], b) && Distinct(block[i].cbs)
    requires forall j :: 0 <= j < k && j != i ==> !Yields(block[j], b)
    ensures Once(FrontReserves(block, k), Reserve(b))
  {
    hide Once, At, ReservesFor;
    var now := if block[k - 1].Yield? then ReservesFor(block[k - 1].cbs) else [];
    var before := FrontReserves(block, k - 1);
    FrontMember(block, k - 1, Reserve(b));
    if block[k - 1].Yield? {
      ReservesMember(block[k - 1].cbs, Reserve(b));
    }
    if i == k - 1 {
      PrimitivesOnce(block[i].cbs, b);
      OnceWithin([], now, before, Reserve(b));
      assert [] + now + before == now + before;
    } else {
      FrontOnce(block, k - 1, b, i);
      OnceWithin(now, before, [], Reserve(b));
      assert now + before + [] == now + before;
    }
  }

  lemma {:induction false} EndOnce(block: seq<Instr>, k: nat, b: nat, i: nat)
    requires i < k <= |block| && Awaits(block[i], b) && Distinct(block[i].cbs)
    requires forall j :: 0 <= j < k && j != i ==> !Awaits(block[j], b)
    ensures Once(EndPops(block, k), Pop(b))
  {
    hide Once, At;
    var now := if block[k - 1].Await? then PopsFor(block[k - 1].cbs) else [];
    var before := EndPops(block, k - 1);
    EndMember(block, k - 1, Pop(b));
    if block[k - 1].Await? {
      PopsMember(block[k - 1].cbs, Pop(b));
    }
    if i == k - 1 {
      PrimitivesOnce(block[i].cbs, b);
      OnceWithin(before, now, [], Pop(b));
      assert before + now + [] == before + now;
    } else {
      EndOnce(block, k - 1, b, i);
      OnceWithin([], before, now, Pop(b));
      assert [] + before + now == before + now;
    }
  }

  lemma PopPlace(block: seq<Instr>, inFunc: bool, b: nat, i: nat)
    requires IsInput(block, inFunc) && i < |block| && Awaits(block[i], b)
    ensures Once(Done(block, inFunc), Pop(b))
    ensures StartOf(block, inFunc, |block| - 1) <= At(Done(block, inFunc), Pop(b))
  {
    hide Body, FrontReserves, EndPops, Lowered, Once, At;
    var n := |block| - 1;
    var s, at := Done(block, inFunc), StartOf(block, inFunc, n);
    Parts(block, inFunc, n);
    BeforeMember(block, inFunc, n, Pop(b));
    forall j | 0 <= j < n
      ensures Pop(b) !in Expand(block[j], inFunc, Ys(block))
    {
      ExpandMember(block[j], inFunc, Ys(block), Pop(b));
    }
    EndOnce(block, n, b, i);
    hide IsInput;
    NoBody(block, n, inFunc, Ys(block));
    assert s == s[..at] + EndPops(block, n) + [block[n]];
    TerminatorYieldsNothing(block, inFunc);
    OnceWithin(s[..at], EndPops(block, n), [block[n]], Pop(b));
  }

  // Where the reserve of a yielded buffer is: at the front, or after the op that defines the buffer.
  lemma ReservePlace(block: seq<Instr>, inFunc: bool, b: nat, i: nat) returns (m: nat)
    requires IsInput(block, inFunc) && i < |block| && Yields(block[i], b)
    ensures m <= i && Once(Done(block, inFunc), Reserve(b))
    ensures At(Done(block, inFunc), Reserve(b)) < StartOf(block, inFunc, m)
    ensures forall j :: 0 <= j < |block| && Writes(block[j], b) ==> m <= j
  {
    hide Body, FrontReserves, EndPops, Lowered, Once, At;
    var n := |block| - 1;
    if inFunc {
      m := ReserveInFunc(block, b, i);
    } else {
      m := 0;
      var s := Done(block, false);
      Parts(block, false, 0);
      NoBody(block, 0, false, Ys(block));
      FrontOnce(block, n, b, i);
      AfterMember(block, false, 0, Reserve(b));
      forall j | 0 <= j < n
        ensures Reserve(b) !in Expand(block[j], false, Ys(block))
      {
        ExpandMember(block[j], false, Ys(block), Reserve(b));
      }
      var at := StartOf(block, false, 0);
      assert s == [] + FrontReserves(block, n) + s[at..];
      OnceWithin([], FrontReserves(block, n), s[at..], Reserve(b));
    }
  }

  lemma ReserveInFunc(block: seq<Instr>, b: nat, i: nat) returns (m: nat)
    requires IsInput(block, true) && i < |block| && Yields(block[i], b)
    ensures m <= i && Once(Done(block, true), Reserve(b))
    ensures At(Done(block, true), Reserve(b)) < StartOf(block, true, m)
    ensures forall j :: 0 <= j < |block| && Writes(block[j], b) ==> m <= j
  {
    hide Body, FrontReserves, EndPops, Lowered, Once, At, StartOf, Done;
    assert DefinedBefore(block, b, i);
    var d: nat :| d < i && IsAt(block, Define(b), d) && forall j :: 0 <= j < |block| && Writes(block[j], b) ==> d < j;
    m := d + 1;
    YieldedMember(block, |block| - 1, b);
    forall j | 0 <= j < |block| - 1
      ensures Reserve(b) in Expand(block[j], true, Ys(block)) <==> j == d
    {
      ExpandMember(block[j], true, Ys(block), Reserve(b));
    }
    assert Expand(block[d], true, Ys(block)) == [Define(b), Reserve(b)];
    SecondOnce(Define(b), Reserve(b));
    BeforeMember(block, true, d, Reserve(b));
    AfterMember(block, true, d + 1, Reserve(b));
    hide IsInput;
    ExpandedOnce(block, true, d, Reserve(b));
  }

  lemma {:induction false} StartGrows(block: seq<Instr>, inFunc: bool, a: nat, b: nat)
    requires a <= b < |block|
    ensures StartOf(block, inFunc, a) <= StartOf(block, inFunc, b)
  {
    BodySplit(block, 0, a, b, inFunc, Ys(block));
  }

  lemma NoBody(block: seq<Instr>, m: nat, inFunc: bool, ys: set<nat>)
    requires m <= |block|
    ensures Body(block, m, m, inFunc, ys) == []
  {}

  lemma SecondOnce(x: Instr, y: Instr)
    requires x != y
    ensures Once([x, y], y)
  {
    assert IsAt([x, y], y, 1);
  }

  // The writes and reads of a buffer are where their ops were.
  lemma AccessPlace(block: seq<Instr>, inFunc: bool, k: nat) returns (j: nat)
    requires IsInput(block, inFunc) && k < |Done(block, inFunc)|
    requires Done(block, inFunc)[k].Write? || Done(block, inFunc)[k].Read?
    ensures j < |block| - 1 && block[j] == Done(block, inFunc)[k]
    ensures StartOf(block, inFunc, j) <= k < StartOf(block, inFunc, j + 1)
  {
    hide Body, FrontReserves, EndPops, Lowered, Expand;
    var n := |block| - 1;
    var x := Done(block, inFunc)[k];
    j := 0;
    Parts(block, inFunc, 0);
    NoBody(block, 0, inFunc, Ys(block));
    if k < StartOf(block, inFunc, 0) {
      assert x in Done(block, inFunc)[..StartOf(block, inFunc, 0)];
      BeforeMember(block, inFunc, 0, x);
    }
    Parts(block, inFunc, n);
    if k >= StartOf(block, inFunc, n) {
      assert x == Done(block, inFunc)[StartOf(block, inFunc, n)..][k - StartOf(block, inFunc, n)];
      AfterMember(block, inFunc, n, x);
    }
    while k >= StartOf(block, inFunc, j + 1)
      invariant j < n && StartOf(block, inFunc, j) <= k < StartOf(block, inFunc, n)
      decreases n - j
    {
      j := j + 1;
    }
    InExpansion(block, inFunc, j, k);
    ExpandMember(block[j], inFunc, Ys(block), x);
  }

  lemma InExpansion(block: seq<Instr>, inFunc: bool, m: nat, k: nat)
    requires block != [] && m < |block| - 1 && StartOf(block, inFunc, m) <= k < StartOf(block, inFunc, m + 1)
    ensures k < |Done(block, inFunc)| && Done(block, inFunc)[k] in Expand(block[m], inFunc, Ys(block))
  {
    hide FrontReserves, EndPops, Lowered, Expand, Body;
    Parts(block, inFunc, m);
    Parts(block, inFunc, m + 1);
    BodyNext(block, m, inFunc, Ys(block));
    var s, a, b := Done(block, inFunc), StartOf(block, inFunc, m), StartOf(block, inFunc, m + 1);
    var e := Expand(block[m], inFunc, Ys(block));
    assert s[..b] == s[..a] + e;
    assert s[k] == s[..b][k] == e[k - a];
  }

  /* The main facts */

  // A thread that yields a buffer reserves, writes and pushes it in that order.
  lemma LoweredProduces(block: seq<Instr>, inFunc: bool, b: nat, i: nat)
    requires IsInput(block, inFunc) && YieldedAt(block, b, i)
    ensures Produces(Done(block, inFunc), b)
  {
    hide IsInput, Body, FrontReserves, EndPops, Lowered, Once, At, StartOf, Done;
    PushPlace(block, inFunc, b, i);
    var m := ReservePlace(block, inFunc, b, i);
    StartGrows(block, inFunc, m, i);
    var s := Done(block, inFunc);
    forall k | 0 <= k < |s| && s[k].Write? && s[k].cb == b
      ensures At(s, Reserve(b)) < k < At(s, Push(b))
    {
      var j := AccessPlace(block, inFunc, k);
      assert Writes(block[j], b);
      StartGrows(block, inFunc, m, j);
      StartGrows(block, inFunc, j + 1, i);
    }
  }

  // A thread that awaits a buffer waits for, reads and pops it in that order.
  lemma LoweredConsumes(block: seq<Instr>, inFunc: bool, b: nat, i: nat)
    requires IsInput(block, inFunc) && AwaitedAt(block, b, i)
    ensures Consumes(Done(block, inFunc), b)
  {
    hide IsInput, Body, FrontReserves, EndPops, Lowered, Once, At, StartOf, Done;
    var n := |block| - 1;
    WaitPlace(block, inFunc, b, i);
    PopPlace(block, inFunc, b, i);
    StartGrows(block, inFunc, i + 1, n);
    var s := Done(block, inFunc);
    forall k | 0 <= k < |s| && s[k].Read? && s[k].cb == b
      ensures At(s, Wait(b)) < k < At(s, Pop(b))
    {
      var j := AccessPlace(block, inFunc, k);
      assert ReadsFrom(block[j], b);
      StartGrows(block, inFunc, i + 1, j);
      StartGrows(block, inFunc, j + 1, n);
    }
  }

  // A thread that yields a buffer before it awaits it pushes before it waits.
  lemma LoweredOrders(block: seq<Instr>, inFunc: bool, b: nat, i: nat, j: nat)
    requires IsInput(block, inFunc) && i < j < |block| && Yields(block[i], b) && Awaits(block[j], b)
    ensures Ordered(Done(block, inFunc), Push(b), Wait(b))
  {
    hide IsInput, Body, FrontReserves, EndPops, Lowered, Once, At, StartOf, Done;
    PushPlace(block, inFunc, b, i);
    WaitPlace(block, inFunc, b, j);
    StartGrows(block, inFunc, i + 1, j);
  }

  lemma DoneMember(block: seq<Instr>, inFunc: bool, x: Instr)
    requires IsInput(block, inFunc)
    ensures x in Done(block, inFunc) <==>
      || x == Terminator
      || (!inFunc && x.Reserve? && exists j :: 0 <= j < |block| && Yields(block[j], x.cb))
      || (x.Pop? && exists j :: 0 <= j < |block| && Awaits(block[j], x.cb))
      || exists j :: 0 <= j < |block| - 1 && x in Expand(block[j], inFunc, Ys(block))
  {
    hide IsInput, Body, FrontReserves, EndPops, Lowered, StartOf, Expand;
    TerminatorYieldsNothing(block, inFunc);
    BeforeMember(block, inFunc, 0, x);
    AfterMember(block, inFunc, 0, x);
    var s := Done(block, inFunc);
    var at := StartOf(block, inFunc, 0);
    assert s == s[..at] + s[at..];
  }

  lemma LoweredLeaves(block: seq<Instr>, inFunc: bool, b: nat)
    requires IsInput(block, inFunc) && forall j :: 0 <= j < |block| ==> !Yields(block[j], b) && !Writes(block[j], b)
    ensures Leaves(Done(block, inFunc), b)
  {
    hide Body, FrontReserves, EndPops, Lowered, Done, Expand;
    var s := Done(block, inFunc);
    YieldedMember(block, |block| - 1, b);
    forall k | 0 <= k < |s|
      ensures s[k] != Reserve(b) && s[k] != Push(b) && !(s[k].Write? && s[k].cb == b)
    {
      var x := s[k];
      assert x in s;
      DoneMember(block, inFunc, x);
      if x == Reserve(b) || x == Push(b) || Writes(x, b) {
        var j :| 0 <= j < |block| - 1 && x in Expand(block[j], inFunc, Ys(block));
        ExpandMember(block[j], inFunc, Ys(block), x);
        assert false;
      }
    }
  }

  lemma LoweredIgnores(block: seq<Instr>, inFunc: bool, b: nat)
    requires IsInput(block, inFunc) && forall j :: 0 <= j < |block| ==> !Awaits(block[j], b) && !ReadsFrom(block[j], b)
    ensures Ignores(Done(block, inFunc), b)
  {
    hide Body, FrontReserves, EndPops, Lowered, Done, Expand;
    var s := Done(block, inFunc);
    forall k | 0 <= k < |s|
      ensures s[k] != Wait(b) && s[k] != Pop(b) && !(s[k].Read? && s[k].cb == b)
    {
      var x := s[k];
      assert x in s;
      DoneMember(block, inFunc, x);
      if x == Wait(b) || x == Pop(b) || ReadsFrom(x, b) {
        var j :| 0 <= j < |block| - 1 && x in Expand(block[j], inFunc, Ys(block));
        ExpandMember(block[j], inFunc, Ys(block), x);
        assert false;
      }
    }
  }

  /* The rewriter */

  function InsertAt(s: seq<Instr>, at: nat, x: Instr): seq<Instr>
    requires at <= |s|
  {
    s[..at] + [x] + s[at..]
  }

  // An await of which the first j values have been lowered.
  function AwaitState(a: seq<Instr>, c: seq<Instr>, t: seq<Instr>, op: Instr, cbs: seq<nat>, j: nat): seq<Instr>
    requires j <= |cbs|
  {
    a + Waits(cbs[..j]) + [op] + c + PopsFor(cbs[..j]) + t
  }

  // An await: the waits replace it, the pops go before the terminator.
  method RewriteAwait(block: seq<Instr>, at: nat) returns (r: seq<Instr>, next: nat)
    requires at < |block| - 1 && block[at].Await?
    ensures r == block[..at] + Waits(block[at].cbs) + block[at + 1..|block| - 1] + PopsFor(block[at].cbs) + [block[|block| - 1]]
    ensures next == at + |block[at].cbs|
  {
    hide Waits, PopsFor, InsertAt, AwaitState;
    var cbs := block[at].cbs;
    ghost var a, c, t := block[..at], block[at + 1..|block| - 1], [block[|block| - 1]];
    r, next := block, at;
    AwaitBegins(block, at, cbs);
    for j := 0 to |cbs|
      invariant next == at + j && r == AwaitState(a, c, t, block[at], cbs, j)
    {
      AwaitStep(a, c, t, block[at], cbs, j);
      r := InsertAt(r, next, Wait(cbs[j]));
      r := InsertAt(r, |r| - 1, Pop(cbs[j]));
      next := next + 1;
    }
    AwaitEnds(a, c, t, block[at], cbs);
    r := r[..next] + r[next + 1..];
  }

  lemma AwaitBegins(block: seq<Instr>, at: nat, cbs: seq<nat>)
    requires at < |block| - 1
    ensures block == AwaitState(block[..at], block[at + 1..|block| - 1], [block[|block| - 1]], block[at], cbs, 0)
  {
    assert Waits(cbs[..0]) == [] && PopsFor(cbs[..0]) == [];
  }

  lemma AwaitStep(a: seq<Instr>, c: seq<Instr>, t: seq<Instr>, op: Instr, cbs: seq<nat>, j: nat)
    requires |t| == 1 && j < |cbs|
    ensures |a| + j <= |AwaitState(a, c, t, op, cbs, j)|
    ensures var r1 := InsertAt(AwaitState(a, c, t, op, cbs, j), |a| + j, Wait(cbs[j]));
      |r1| > 0 && InsertAt(r1, |r1| - 1, Pop(cbs[j])) == AwaitState(a, c, t, op, cbs, j + 1)
  {
    var w, p := Waits(cbs[..j]), PopsFor(cbs[..j]);
    assert Waits(cbs[..j + 1]) == w + [Wait(cbs[j])];
    assert PopsFor(cbs[..j + 1]) == p + [Pop(cbs[j])];
    hide Waits, PopsFor, InsertAt;
    RegroupAwait(a, w, op, c, p, t, Wait(cbs[j]), Pop(cbs[j]));
    InsertBetween(a + w, [op] + c + p + t, Wait(cbs[j]));
    InsertBetween(a + w + [Wait(cbs[j])] + [op] + c + p, t, Pop(cbs[j]));
    assert |w| == j by { PushesLength(cbs[..j]); }
  }

  lemma RegroupAwait(a: seq<Instr>, w: seq<Instr>, op: Instr, c: seq<Instr>, p: seq<Instr>, t: seq<Instr>, x: Instr, y: Instr)
    ensures a + w + [op] + c + p + t == (a + w) + ([op] + c + p + t)
    ensures (a + w) + [x] + ([op] + c + p + t) == (a + w + [x] + [op] + c + p) + t
    ensures (a + w + [x] + [op] + c + p) + [y] + t == a + (w + [x]) + [op] + c + (p + [y]) + t
    ensures a + w + [op] + c + p + t == (a + w) + [op] + (c + p + t)
  {}

  lemma AwaitEnds(a: seq<Instr>, c: seq<Instr>, t: seq<Instr>, op: Instr, cbs: seq<nat>)
    ensures var r := AwaitState(a, c, t, op, cbs, |cbs|); var next := |a| + |cbs|;
      next < |r| && r[..next] + r[next + 1..] == a + Waits(cbs) + c + PopsFor(cbs) + t
  {
    assert cbs[..|cbs|] == cbs;
    PushesLength(cbs);
    hide Waits, PopsFor;
    RegroupAwait(a, Waits(cbs), op, c, PopsFor(cbs), t, op, op);
    EraseAt(a + Waits(cbs), op, c + PopsFor(cbs) + t);
    AwaitEndGroup(a, Waits(cbs), c, PopsFor(cbs), t);
  }

  lemma AwaitEndGroup(a: seq<Instr>, w: seq<Instr>, c: seq<Instr>, p: seq<Instr>, t: seq<Instr>)
    ensures (a + w) + (c + p + t) == a + w + c + p + t
  {}

  lemma InsertBetween(a: seq<Instr>, c: seq<Instr>, x: Instr)
    ensures InsertAt(a + c, |a|, x) == a + [x] + c
  {}

  lemma EraseAt(a: seq<Instr>, x: Instr, c: seq<Instr>)
    ensures (a + [x] + c)[..|a|] + (a + [x] + c)[|a| + 1..] == a + c
  {}

  // A yield in an inner block of which the first j values have been lowered.
  function YieldState(a: seq<Instr>, c: seq<Instr>, op: Instr, cbs: seq<nat>, j: nat): seq<Instr>
    requires j <= |cbs|
  {
    ReservesFor(cbs[..j]) + a + PushesFor(cbs[..j]) + [op] + c
  }

  // A yield in an inner block: each reserve goes to the front, the pushes replace the yield.
  method RewriteYield(block: seq<Instr>, at: nat) returns (r: seq<Instr>, next: nat)
    requires at < |block| && block[at].Yield?
    ensures r == ReservesFor(block[at].cbs) + block[..at] + PushesFor(block[at].cbs) + block[at + 1..]
    ensures next == at + |block[at].cbs| + |block[at].cbs|
  {
    hide ReservesFor, PushesFor, InsertAt, YieldState;
    var cbs := block[at].cbs;
    ghost var a, c := block[..at], block[at + 1..];
    r, next := block, at;
    YieldBegins(block, at, cbs);
    for j := 0 to |cbs|
      invariant next == at + j + j && r == YieldState(a, c, block[at], cbs, j)
    {
      YieldStep(a, c, block[at], cbs, j);
      r := InsertAt(r, 0, Reserve(cbs[j]));
      r := InsertAt(r, next + 1, Push(cbs[j]));
      next := next + 2;
    }
    YieldEnds(a, c, block[at], cbs);
    r := r[..next] + r[next + 1..];
  }

  lemma YieldBegins(block: seq<Instr>, at: nat, cbs: seq<nat>)
    requires at < |block|
    ensures block == YieldState(block[..at], block[at + 1..], block[at], cbs, 0)
  {
    assert ReservesFor(cbs[..0]) == [] && PushesFor(cbs[..0]) == [];
  }

  lemma YieldStep(a: seq<Instr>, c: seq<Instr>, op: Instr, cbs: seq<nat>, j: nat)
    requires j < |cbs|
    ensures var r1 := InsertAt(YieldState(a, c, op, cbs, j), 0, Reserve(cbs[j]));
      |a| + j + j + 1 <= |r1| && InsertAt(r1, |a| + j + j + 1, Push(cbs[j])) == YieldState(a, c, op, cbs, j + 1)
  {
    var rs, ps := ReservesFor(cbs[..j]), PushesFor(cbs[..j]);
    assert ReservesFor(cbs[..j + 1]) == [Reserve(cbs[j])] + rs;
    assert PushesFor(cbs[..j + 1]) == ps + [Push(cbs[j])];
    PushesLength(cbs[..j]);
    hide ReservesFor, PushesFor, InsertAt;
    RegroupYield(Reserve(cbs[j]), rs, a, ps, Push(cbs[j]), op, c);
    InsertBetween([], rs + a + ps + [op] + c, Reserve(cbs[j]));
    InsertBetween([Reserve(cbs[j])] + rs + a + ps, [op] + c, Push(cbs[j]));
  }

  lemma RegroupYield(x: Instr, rs: seq<Instr>, a: seq<Instr>, ps: seq<Instr>, y: Instr, op: Instr, c: seq<Instr>)
    ensures [] + (rs + a + ps + [op] + c) == rs + a + ps + [op] + c
    ensures [] + [x] + (rs + a + ps + [op] + c) == ([x] + rs + a + ps) + ([op] + c)
    ensures ([x] + rs + a + ps) + [y] + ([op] + c) == ([x] + rs) + a + (ps + [y]) + [op] + c
    ensures rs + a + ps + [op] + c == (rs + a + ps) + [op] + c
  {}

  lemma YieldEnds(a: seq<Instr>, c: seq<Instr>, op: Instr, cbs: seq<nat>)
    ensures var r := YieldState(a, c, op, cbs, |cbs|); var next := |a| + |cbs| + |cbs|;
      next < |r| && r[..next] + r[next + 1..] == ReservesFor(cbs) + a + PushesFor(cbs) + c
  {
    assert cbs[..|cbs|] == cbs;
    PushesLength(cbs);
    hide ReservesFor, PushesFor;
    EraseAt(ReservesFor(cbs) + a + PushesFor(cbs), op, c);
  }

  // The position of the op that defines a buffer.
  method FindDefine(block: seq<Instr>, cb: nat) returns (at: nat)
    requires Define(cb) in block
    ensures at < |block| && block[at] == Define(cb)
  {
    at := 0;
    while block[at] != Define(cb)
      invariant at < |block| && Define(cb) !in block[..at]
      decreases |block| - at
    {
      assert block == block[..at + 1] + block[at + 1..];
      at := at + 1;
    }
  }

  // A yield in a function's own block: each reserve goes after the op that defines the buffer.
  method RewriteFuncYield(block: seq<Instr>, at: nat, ghost input: seq<Instr>, ghost k: nat) returns (r: seq<Instr>, next: nat)
    requires IsInput(input, true) && k < |input| - 1 && input[k].Yield? && at < |block|
    requires block == Body(input, 0, k, true, Yielded(input, k)) + [input[k]] + block[at + 1..] && at == |Body(input, 0, k, true, Yielded(input, k))|
    requires forall b :: b in input[k].cbs ==> Define(b) !in block[at + 1..]
    ensures r == Body(input, 0, k, true, Yielded(input, k + 1)) + PushesFor(input[k].cbs) + block[at + 1..]
    ensures next == |Body(input, 0, k, true, Yielded(input, k + 1))| + |input[k].cbs|
  {
    hide IsInput, Body, Yielded, PushesFor, InsertAt, FrontReserves, EndPops, ReservesFor, PopsFor;
    NoPushes();
    FrontNext(input, k);
    var cbs := block[at].cbs;
    ghost var c, ys := block[at + 1..], Yielded(input, k);
    r, next := block, at;
    assert cbs[..0] == [] && Elements(cbs[..0]) == {} && ys + {} == ys;
    for j := 0 to |cbs|
      invariant next == |Body(input, 0, k, true, ys + Elements(cbs[..j]))| + j
      invariant r == Body(input, 0, k, true, ys + Elements(cbs[..j])) + PushesFor(cbs[..j]) + [input[k]] + c
    {
      DefineIsPresent(input, k, cbs, j, c);
      var define := FindDefine(r, cbs[j]);
      DefineIsHere(input, k, cbs, j, c, define);
      r := InsertAt(r, define + 1, Reserve(cbs[j]));
      r := InsertAt(r, next + 1, Push(cbs[j]));
      next := next + 2;
    }
    assert cbs[..|cbs|] == cbs;
    assert cbs == input[k].cbs;
    PushesLength(cbs);
    EraseAt(Body(input, 0, k, true, Yielded(input, k + 1)) + PushesFor(cbs), input[k], c);
    r := r[..next] + r[next + 1..];
  }

  lemma NoPushes()
    ensures PushesFor([]) == []
  {}

  lemma PushesLength(cbs: seq<nat>)
    ensures |PushesFor(cbs)| == |Waits(cbs)| == |ReservesFor(cbs)| == |cbs|
  {}

  // One more yielded buffer puts its reserve after its definition.
  lemma {:induction false} BodyReserve(input: seq<Instr>, k: nat, ys: set<nat>, b: nat, d: nat)
    requires d < k <= |input| && IsAt(input, Define(b), d) && b !in ys
    ensures var a := Body(input, 0, k, true, ys); var at := |Body(input, 0, d, true, ys)|;
      at < |a| && a[at] == Define(b) && Body(input, 0, k, true, ys + {b}) == InsertAt(a, at + 1, Reserve(b))
    decreases k
  {
    hide Body;
    var a, at := Body(input, 0, k, true, ys), |Body(input, 0, d, true, ys)|;
    var before := Body(input, 0, k - 1, true, ys);
    BodySnoc(input, k, ys);
    BodySnoc(input, k, ys + {b});
    if k == d + 1 {
      BodySame(input, d, ys, b);
      assert a == before + [Define(b)];
      assert a == before + [Define(b)] + [];
      InsertBetween(before + [Define(b)], [], Reserve(b));
      assert Body(input, 0, k, true, ys + {b}) == before + [Define(b), Reserve(b)];
    } else {
      BodyReserve(input, k - 1, ys, b, d);
      ExpandSame(input[k - 1], ys, b);
      var e := Expand(input[k - 1], true, ys);
      hide Expand;
      InsertEarly(before, e, at + 1, Reserve(b));
    }
  }

  lemma BodySnoc(input: seq<Instr>, k: nat, ys: set<nat>)
    requires 0 < k <= |input|
    ensures Body(input, 0, k, true, ys) == Body(input, 0, k - 1, true, ys) + Expand(input[k - 1], true, ys)
  {}

  lemma ExpandSame(x: Instr, ys: set<nat>, b: nat)
    requires x != Define(b)
    ensures Expand(x, true, ys + {b}) == Expand(x, true, ys)
  {}

  lemma InsertEarly(a: seq<Instr>, c: seq<Instr>, at: nat, x: Instr)
    requires at <= |a|
    ensures InsertAt(a + c, at, x) == InsertAt(a, at, x) + c
  {}

  lemma {:induction false} BodySame(input: seq<Instr>, k: nat, ys: set<nat>, b: nat)
    requires k <= |input| && forall i :: 0 <= i < k ==> input[i] != Define(b)
    ensures Body(input, 0, k, true, ys + {b}) == Body(input, 0, k, true, ys)
  {
    if k > 0 {
      BodySame(input, k - 1, ys, b);
    }
  }

  // The buffer of the next value is defined before and has not been yielded yet.
  lemma NextIsDefined(input: seq<Instr>, k: nat, cbs: seq<nat>, j: nat) returns (d: nat)
    requires IsInput(input, true) && k < |input| - 1 && input[k].Yield? && cbs == input[k].cbs && j < |cbs|
    ensures d < k && IsAt(input, Define(cbs[j]), d) && cbs[j] !in Yielded(input, k) + Elements(cbs[..j])
    ensures forall i :: 0 <= i <= k ==> NotLoweredYet(input[i])
  {
    assert Yields(input[k], cbs[j]);
    assert DefinedBefore(input, cbs[j], k);
    d :| d < k && IsAt(input, Define(cbs[j]), d) && forall i :: 0 <= i < |input| && Writes(input[i], cbs[j]) ==> d < i;
    YieldedMember(input, k, cbs[j]);
  }

  lemma DefineIsPresent(input: seq<Instr>, k: nat, cbs: seq<nat>, j: nat, c: seq<Instr>)
    requires IsInput(input, true) && k < |input| - 1 && input[k].Yield? && cbs == input[k].cbs && j < |cbs|
    ensures var ys := Yielded(input, k) + Elements(cbs[..j]);
      Define(cbs[j]) in Body(input, 0, k, true, ys) + PushesFor(cbs[..j]) + [input[k]] + c
  {
    hide IsInput, Yielded, PushesFor;
    var d := NextIsDefined(input, k, cbs, j);
    var ys := Yielded(input, k) + Elements(cbs[..j]);
    BodyReserve(input, k, ys, cbs[j], d);
    var a := Body(input, 0, k, true, ys);
    assert a[|Body(input, 0, d, true, ys)|] in a;
  }

  // The definition found is the one in the lowered part, and what is inserted there and at the yield
  // is what the next buffer adds.
  lemma DefineIsHere(input: seq<Instr>, k: nat, cbs: seq<nat>, j: nat, c: seq<Instr>, define: nat)
    requires IsInput(input, true) && k < |input| - 1 && input[k].Yield? && cbs == input[k].cbs && j < |cbs|
    requires Define(cbs[j]) !in c
    requires var ys := Yielded(input, k) + Elements(cbs[..j]);
      var r := Body(input, 0, k, true, ys) + PushesFor(cbs[..j]) + [input[k]] + c;
      define < |r| && r[define] == Define(cbs[j])
    ensures var ys := Yielded(input, k) + Elements(cbs[..j]); var ys' := Yielded(input, k) + Elements(cbs[..j + 1]);
      var a := Body(input, 0, k, true, ys);
      var r := a + PushesFor(cbs[..j]) + [input[k]] + c;
      var r1 := InsertAt(r, define + 1, Reserve(cbs[j]));
      && |a| + j + 1 <= |r1| && |Body(input, 0, k, true, ys')| == |a| + 1
      && InsertAt(r1, |a| + j + 1, Push(cbs[j])) == Body(input, 0, k, true, ys') + PushesFor(cbs[..j + 1]) + [input[k]] + c
  {
    hide IsInput, Yielded, Body, PushesFor, InsertAt, Elements;
    var b := cbs[j];
    var d := NextIsDefined(input, k, cbs, j);
    var ys := Yielded(input, k) + Elements(cbs[..j]);
    var a, ps := Body(input, 0, k, true, ys), PushesFor(cbs[..j]);
    OneMorePush(Yielded(input, k), cbs, j);
    BodyReserve(input, k, ys, b, d);
    TailGroup(a, ps, input[k], c);
    OneDefine(input, k, ys, b, d, define, ps + [input[k]] + c);
    InsertTwice(a, |Body(input, 0, d, true, ys)| + 1, Reserve(b), ps, Push(b), input[k], c);
  }

  lemma OneMorePush(ys: set<nat>, cbs: seq<nat>, j: nat)
    requires j < |cbs|
    ensures ys + Elements(cbs[..j]) + {cbs[j]} == ys + Elements(cbs[..j + 1])
    ensures PushesFor(cbs[..j + 1]) == PushesFor(cbs[..j]) + [Push(cbs[j])]
    ensures |PushesFor(cbs[..j])| == j && Define(cbs[j]) !in PushesFor(cbs[..j])
  {
    assert cbs[..j + 1] == cbs[..j] + [cbs[j]];
  }

  lemma TailGroup(a: seq<Instr>, ps: seq<Instr>, op: Instr, c: seq<Instr>)
    ensures a + ps + [op] + c == a + (ps + [op] + c)
  {}

  // Inserting inside the first part, then at the end of the second.
  lemma InsertTwice(a: seq<Instr>, at: nat, x: Instr, ps: seq<Instr>, y: Instr, op: Instr, c: seq<Instr>)
    requires at <= |a|
    ensures |InsertAt(a, at, x)| == |a| + 1
    ensures var r1 := InsertAt(a + ps + [op] + c, at, x);
      |a| + |ps| + 1 <= |r1| && InsertAt(r1, |a| + |ps| + 1, y) == InsertAt(a, at, x) + (ps + [y]) + [op] + c
  {
    var front, back := a[..at], a[at..];
    RegroupInsert(front, back, ps, op, c, x, y);
    assert a == front + back;
    InsertBetween(front, back + ps + [op] + c, x);
    InsertBetween((front + [x] + back) + ps, [op] + c, y);
  }

  lemma RegroupInsert(front: seq<Instr>, back: seq<Instr>, ps: seq<Instr>, op: Instr, c: seq<Instr>, x: Instr, y: Instr)
    ensures (front + back) + ps + [op] + c == front + (back + ps + [op] + c)
    ensures front + [x] + (back + ps + [op] + c) == ((front + [x] + back) + ps) + ([op] + c)
    ensures ((front + [x] + back) + ps) + [y] + ([op] + c) == (front + [x] + back) + (ps + [y]) + [op] + c
  {}

  lemma OneDefine(input: seq<Instr>, k: nat, ys: set<nat>, b: nat, d: nat, define: nat, rest: seq<Instr>)
    requires d < k < |input| && IsAt(input, Define(b), d) && b !in ys && Define(b) !in rest
    requires forall i :: 0 <= i <= k ==> NotLoweredYet(input[i])
    requires var r := Body(input, 0, k, true, ys) + rest; define < |r| && r[define] == Define(b)
    ensures define == |Body(input, 0, d, true, ys)|
  {
    hide Body;
    var a := Body(input, 0, k, true, ys);
    BodySplit(input, 0, d, k, true, ys);
    BodySplit(input, d, d + 1, k, true, ys);
    var first, mid, last := Body(input, 0, d, true, ys), Body(input, d, d + 1, true, ys), Body(input, d + 1, k, true, ys);
    LoneDefine(input, d, ys, b);
    NoDefine(input, 0, d, ys, b);
    NoDefine(input, d + 1, k, ys, b);
    assert a == first + [Define(b)] + last;
    OnlyAt(first, Define(b), last, rest, define);
  }

  lemma LoneDefine(input: seq<Instr>, d: nat, ys: set<nat>, b: nat)
    requires d < |input| && input[d] == Define(b) && b !in ys
    ensures Body(input, d, d + 1, true, ys) == [Define(b)]
  {
    assert Body(input, d, d, true, ys) == [];
  }

  lemma OnlyAt(first: seq<Instr>, x: Instr, last: seq<Instr>, rest: seq<Instr>, i: nat)
    requires x !in first && x !in last && x !in rest
    requires i < |(first + [x] + last) + rest| && ((first + [x] + last) + rest)[i] == x
    ensures i == |first|
  {
    var s := (first + [x] + last) + rest;
    forall j | 0 <= j < |s| && j != |first|
      ensures s[j] != x
    {
      if j < |first| {
        assert s[j] == first[j];
      } else if j <= |first| + |last| {
        assert s[j] == last[j - |first| - 1];
      } else {
        assert s[j] == rest[j - |first| - 1 - |last|];
      }
    }
  }

  lemma NoDefine(input: seq<Instr>, lo: nat, hi: nat, ys: set<nat>, b: nat)
    requires lo <= hi <= |input| && forall i :: lo <= i < hi ==> NotLoweredYet(input[i]) && input[i] != Define(b)
    ensures Define(b) !in Body(input, lo, hi, true, ys)
  {
    hide Body, Expand;
    BodyMember(input, lo, hi, true, ys, Define(b));
    forall i | lo <= i < hi
      ensures Define(b) !in Expand(input[i], true, ys)
    {
      ExpandMember(input[i], true, ys, Define(b));
    }
  }

  /* The whole block */

  // Where the k-th op is once the ones before it have been lowered.
  function Here(block: seq<Instr>, k: nat, inFunc: bool): nat
    requires k < |block|
  {
    |if inFunc then [] else FrontReserves(block, k)| + |Body(block, 0, k, inFunc, Yielded(block, k))|
  }

  function Whole(f: seq<Instr>, b: seq<Instr>, c: seq<Instr>, e: seq<Instr>, t: Instr): seq<Instr> {
    f + b + c + e + [t]
  }

  lemma LoweredIsWhole(block: seq<Instr>, k: nat, inFunc: bool)
    requires k < |block|
    ensures var n := |block| - 1;
      Lowered(block, k, inFunc) == Whole(if inFunc then [] else FrontReserves(block, k), Body(block, 0, k, inFunc, Yielded(block, k)), block[k..n], EndPops(block, k), block[n])
  {}

  lemma SplitWhole(f: seq<Instr>, b: seq<Instr>, op: Instr, c: seq<Instr>, e: seq<Instr>, t: Instr)
    ensures var s := Whole(f, b, [op] + c, e, t); var at := |f| + |b|;
      && at < |s| - 1 && s[at] == op && s[|s| - 1] == t && s[..at] == f + b
      && s[at + 1..] == c + e + [t] && s[at + 1..|s| - 1] == c + e
  {
    var s := Whole(f, b, [op] + c, e, t);
    assert s == (f + b) + ([op] + (c + e) + [t]);
  }

  lemma AwaitWhole(f: seq<Instr>, b: seq<Instr>, w: seq<Instr>, c: seq<Instr>, e: seq<Instr>, p: seq<Instr>, t: Instr)
    ensures (f + b) + w + (c + e) + p + [t] == Whole(f, b + w, c, e + p, t)
  {}

  lemma YieldWhole(rs: seq<Instr>, f: seq<Instr>, b: seq<Instr>, p: seq<Instr>, c: seq<Instr>, e: seq<Instr>, t: Instr)
    ensures rs + (f + b) + p + (c + e + [t]) == Whole(rs + f, b + p, c, e, t)
    ensures b + p + (c + e + [t]) == Whole([], b + p, c, e, t)
  {}

  lemma OtherWhole(f: seq<Instr>, b: seq<Instr>, op: Instr, c: seq<Instr>, e: seq<Instr>, t: Instr)
    ensures Whole(f, b, [op] + c, e, t) == Whole(f, b + [op], c, e, t)
  {}

  lemma SplitHere(block: seq<Instr>, k: nat, inFunc: bool)
    requires k < |block| - 1
    ensures var s := Lowered(block, k, inFunc); var at := Here(block, k, inFunc); var n := |block| - 1;
      && at < |s| - 1 && s[at] == block[k] && s[|s| - 1] == block[n]
      && s[..at] == (if inFunc then [] else FrontReserves(block, k)) + Body(block, 0, k, inFunc, Yielded(block, k))
      && s[at + 1..] == block[k + 1..n] + EndPops(block, k) + [block[n]]
      && s[at + 1..|s| - 1] == block[k + 1..n] + EndPops(block, k)
  {
    hide FrontReserves, Body, Yielded, EndPops, Lowered, Whole;
    var n := |block| - 1;
    assert block[k..n] == [block[k]] + block[k + 1..n];
    LoweredIsWhole(block, k, inFunc);
    SplitWhole(if inFunc then [] else FrontReserves(block, k), Body(block, 0, k, inFunc, Yielded(block, k)), block[k], block[k + 1..n], EndPops(block, k), block[n]);
  }

  lemma {:induction false} BodyInLoop(block: seq<Instr>, k: nat, ys: set<nat>, ys': set<nat>)
    requires k <= |block|
    ensures Body(block, 0, k, false, ys) == Body(block, 0, k, false, ys')
  {
    if k > 0 {
      BodyInLoop(block, k - 1, ys, ys');
    }
  }

  lemma FrontNext(block: seq<Instr>, k: nat)
    requires k < |block|
    ensures FrontReserves(block, k + 1) == (if block[k].Yield? then ReservesFor(block[k].cbs) else []) + FrontReserves(block, k)
    ensures EndPops(block, k + 1) == EndPops(block, k) + (if block[k].Await? then PopsFor(block[k].cbs) else [])
    ensures Yielded(block, k + 1) == Yielded(block, k) + (if block[k].Yield? then Elements(block[k].cbs) else {})
  {}

  lemma BodyNext(block: seq<Instr>, k: nat, inFunc: bool, ys: set<nat>)
    requires k < |block|
    ensures Body(block, 0, k + 1, inFunc, ys) == Body(block, 0, k, inFunc, ys) + Expand(block[k], inFunc, ys)
  {}

  // An op that neither awaits nor yields stays as it is.
  lemma OtherStep(block: seq<Instr>, k: nat, inFunc: bool)
    requires IsInput(block, inFunc) && k < |block| - 1 && !block[k].Await? && !block[k].Yield?
    ensures Lowered(block, k + 1, inFunc) == Lowered(block, k, inFunc) && Here(block, k + 1, inFunc) == Here(block, k, inFunc) + 1
  {
    hide FrontReserves, Body, Yielded, EndPops, IsInput, Lowered, Whole, Expand;
    var n := |block| - 1;
    var ys := Yielded(block, k);
    FrontNext(block, k);
    assert Yielded(block, k + 1) == ys && EndPops(block, k + 1) == EndPops(block, k) && FrontReserves(block, k + 1) == FrontReserves(block, k);
    ExpandsToItself(block, k, inFunc);
    BodyNext(block, k, inFunc, ys);
    assert block[k..n] == [block[k]] + block[k + 1..n];
    LoweredIsWhole(block, k, inFunc);
    LoweredIsWhole(block, k + 1, inFunc);
    OtherWhole(if inFunc then [] else FrontReserves(block, k), Body(block, 0, k, inFunc, ys), block[k], block[k + 1..n], EndPops(block, k), block[n]);
  }

  lemma ExpandsToItself(block: seq<Instr>, k: nat, inFunc: bool)
    requires IsInput(block, inFunc) && k < |block| - 1 && !block[k].Await? && !block[k].Yield?
    ensures Expand(block[k], inFunc, Yielded(block, k)) == [block[k]]
  {
    if block[k].Define? && inFunc {
      forall m | 0 <= m < k
        ensures !Yields(block[m], block[k].cb)
      {
        assert Yields(block[m], block[k].cb) ==> DefinedBefore(block, block[k].cb, m);
      }
      YieldedMember(block, k, block[k].cb);
    }
  }

  lemma Expands(x: Instr, inFunc: bool, ys: set<nat>)
    ensures x.Await? ==> Expand(x, inFunc, ys) == Waits(x.cbs)
    ensures x.Yield? ==> Expand(x, inFunc, ys) == PushesFor(x.cbs)
  {}

  lemma AwaitDone(block: seq<Instr>, k: nat, inFunc: bool, r: seq<Instr>)
    requires IsInput(block, inFunc) && k < |block| - 1 && block[k].Await?
    requires var s := Lowered(block, k, inFunc); var at := Here(block, k, inFunc); (at + 1 < |s| &&
      r == s[..at] + Waits(block[k].cbs) + s[at + 1..|s| - 1] + PopsFor(block[k].cbs) + [s[|s| - 1]])
    ensures r == Lowered(block, k + 1, inFunc) && Here(block, k + 1, inFunc) == Here(block, k, inFunc) + |block[k].cbs|
  {
    hide FrontReserves, Body, Yielded, EndPops, IsInput, Lowered, Whole, Waits, PopsFor, Expand;
    var n := |block| - 1;
    var ys := Yielded(block, k);
    FrontNext(block, k);
    assert Yielded(block, k + 1) == ys && FrontReserves(block, k + 1) == FrontReserves(block, k);
    SplitHere(block, k, inFunc);
    PushesLength(block[k].cbs);
    BodyNext(block, k, inFunc, ys);
    Expands(block[k], inFunc, ys);
    LoweredIsWhole(block, k + 1, inFunc);
    AwaitWhole(if inFunc then [] else FrontReserves(block, k), Body(block, 0, k, inFunc, ys), Waits(block[k].cbs), block[k + 1..n], EndPops(block, k), PopsFor(block[k].cbs), block[n]);
  }

  lemma YieldDone(block: seq<Instr>, k: nat, r: seq<Instr>)
    requires IsInput(block, false) && k < |block| - 1 && block[k].Yield?
    requires var s := Lowered(block, k, false); var at := Here(block, k, false); (at < |s| &&
      r == ReservesFor(block[k].cbs) + s[..at] + PushesFor(block[k].cbs) + s[at + 1..])
    ensures r == Lowered(block, k + 1, false)
    ensures Here(block, k + 1, false) == Here(block, k, false) + |block[k].cbs| + |block[k].cbs|
  {
    hide FrontReserves, Body, Yielded, EndPops, IsInput, Lowered, Whole, PushesFor, ReservesFor, Expand;
    var n := |block| - 1;
    var ys := Yielded(block, k);
    FrontNext(block, k);
    assert EndPops(block, k + 1) == EndPops(block, k);
    SplitHere(block, k, false);
    PushesLength(block[k].cbs);
    BodyInLoop(block, k + 1, ys, Yielded(block, k + 1));
    BodyNext(block, k, false, ys);
    Expands(block[k], false, ys);
    LoweredIsWhole(block, k + 1, false);
    YieldWhole(ReservesFor(block[k].cbs), FrontReserves(block, k), Body(block, 0, k, false, ys), PushesFor(block[k].cbs), block[k + 1..n], EndPops(block, k), block[n]);
  }

  lemma FuncYieldDone(block: seq<Instr>, k: nat, r: seq<Instr>)
    requires IsInput(block, true) && k < |block| - 1 && block[k].Yield?
    requires var s := Lowered(block, k, true); var at := Here(block, k, true); (at < |s| &&
      r == Body(block, 0, k, true, Yielded(block, k + 1)) + PushesFor(block[k].cbs) + s[at + 1..])
    ensures r == Lowered(block, k + 1, true)
    ensures Here(block, k + 1, true) == |Body(block, 0, k, true, Yielded(block, k + 1))| + |block[k].cbs|
  {
    hide FrontReserves, Body, Yielded, EndPops, IsInput, Lowered, Whole, PushesFor, ReservesFor, Expand;
    var n := |block| - 1;
    var ys := Yielded(block, k + 1);
    FrontNext(block, k);
    assert EndPops(block, k + 1) == EndPops(block, k);
    SplitHere(block, k, true);
    PushesLength(block[k].cbs);
    BodyNext(block, k, true, ys);
    Expands(block[k], true, ys);
    LoweredIsWhole(block, k + 1, true);
    YieldWhole([], [], Body(block, 0, k, true, ys), PushesFor(block[k].cbs), block[k + 1..n], EndPops(block, k), block[n]);
  }

  lemma NoLaterDefine(block: seq<Instr>, k: nat, b: nat)
    requires IsInput(block, true) && k < |block| - 1 && Yields(block[k], b)
    ensures Define(b) !in block[k + 1..|block| - 1] + EndPops(block, k) + [block[|block| - 1]]
  {
    hide EndPops;
    assert DefinedBefore(block, b, k);
    EndMember(block, k, Define(b));
  }

  // The rewriter applied to every await and yield of a block, from first to last.
  method LowerBlock(block: seq<Instr>, inFunc: bool) returns (lowered: seq<Instr>)
    requires IsInput(block, inFunc)
    ensures lowered == Done(block, inFunc)
  {
    hide IsInput, Lowered, Here, Body, Yielded, FrontReserves, EndPops, Waits, PopsFor, PushesFor, ReservesFor;
    TerminatorYieldsNothing(block, inFunc);
    lowered := block;
    var at := 0;
    NothingLowered(block, inFunc);
    for k := 0 to |block| - 1
      invariant lowered == Lowered(block, k, inFunc) && at == Here(block, k, inFunc)
    {
      SplitHere(block, k, inFunc);
      if lowered[at].Await? {
        lowered, at := RewriteAwait(lowered, at);
        AwaitDone(block, k, inFunc, lowered);
      } else if lowered[at].Yield? && inFunc {
        ghost var s := lowered;
        FuncYieldReady(block, k);
        lowered, at := RewriteFuncYield(lowered, at, block, k);
        FuncYieldDone(block, k, lowered);
      } else if lowered[at].Yield? {
        lowered, at := RewriteYield(lowered, at);
        YieldDone(block, k, lowered);
      } else {
        OtherStep(block, k, inFunc);
        at := at + 1;
      }
    }
  }

  lemma NothingLowered(block: seq<Instr>, inFunc: bool)
    requires block != []
    ensures Lowered(block, 0, inFunc) == block && Here(block, 0, inFunc) == 0
  {
    var n := |block| - 1;
    assert block == block[0..n] + [block[n]];
  }

  lemma FuncYieldReady(block: seq<Instr>, k: nat)
    requires IsInput(block, true) && k < |block| - 1 && block[k].Yield?
    ensures var s := Lowered(block, k, true); var at := Here(block, k, true);
      && at < |s|
      && s == Body(block, 0, k, true, Yielded(block, k)) + [block[k]] + s[at + 1..]
      && at == |Body(block, 0, k, true, Yielded(block, k))|
      && forall b :: b in block[k].cbs ==> Define(b) !in s[at + 1..]
  {
    hide Body, Yielded, FrontReserves, EndPops, Lowered, IsInput;
    SplitHere(block, k, true);
    var s, at := Lowered(block, k, true), Here(block, k, true);
    assert s == s[..at] + [s[at]] + s[at + 1..];
    forall b | b in block[k].cbs
      ensures Define(b) !in s[at + 1..]
    {
      NoLaterDefine(block, k, b);
    }
  }

  /* Threads whose blocks were lowered */

  // Each buffer is yielded by one thread and awaited by one, which may be the same if it yields first.
  ghost predicate Flows(blocks: seq<seq<Instr>>, producer: seq<nat>, consumer: seq<nat>, b: nat)
    requires b < |producer| && b < |consumer|
  {
    && producer[b] < |blocks| && consumer[b] < |blocks|
    && (forall t, j :: 0 <= t < |blocks| && t != producer[b] && 0 <= j < |blocks[t]| ==> !Yields(blocks[t][j], b) && !Writes(blocks[t][j], b))
    && (forall t, j :: 0 <= t < |blocks| && t != consumer[b] && 0 <= j < |blocks[t]| ==> !Awaits(blocks[t][j], b) && !ReadsFrom(blocks[t][j], b))
    && exists i, j :: YieldedAt(blocks[producer[b]], b, i) && AwaitedAt(blocks[consumer[b]], b, j) && (producer[b] == consumer[b] ==> i < j)
  }

  // Only the system's buffers are named, and only pages they move.
  ghost predicate Names(x: Instr, pages: seq<nat>) {
    && (x.Read? || x.Write? ==> x.cb < |pages| && x.page < pages[x.cb])
    && (x.Await? || x.Yield? ==> forall b :: b in x.cbs ==> b < |pages|)
  }

  // The system the lowered blocks of the threads make.
  function Pipeline(blocks: seq<seq<Instr>>, inFunc: seq<bool>, times: nat, pages: seq<nat>, capacity: seq<nat>, producer: seq<nat>, consumer: seq<nat>): System
    requires |inFunc| == |blocks| && forall t :: 0 <= t < |blocks| ==> blocks[t] != []
  {
    System(seq(|blocks|, (t: nat) requires t < |blocks| => Done(blocks[t], inFunc[t])), times, pages, capacity, producer, consumer)
  }

  lemma LoweredRefers(block: seq<Instr>, inFunc: bool, s: System, x: Instr)
    requires IsInput(block, inFunc) && x in Done(block, inFunc)
    requires forall j :: 0 <= j < |block| ==> Names(block[j], s.pages)
    ensures Refers(s, x)
  {
    hide Body, FrontReserves, EndPops, Lowered, Done, Expand;
    DoneMember(block, inFunc, x);
    if j :| 0 <= j < |block| - 1 && x in Expand(block[j], inFunc, Ys(block)) {
      ExpandMember(block[j], inFunc, Ys(block), x);
      if x.Reserve? {
        YieldedMember(block, |block| - 1, x.cb);
      }
    }
  }

  lemma FlowIsConnected(blocks: seq<seq<Instr>>, inFunc: seq<bool>, s: System, b: nat)
    requires |inFunc| == |blocks| == |s.threads| && b < |s.producer| && b < |s.consumer|
    requires forall t :: 0 <= t < |blocks| ==> IsInput(blocks[t], inFunc[t]) && s.threads[t] == Done(blocks[t], inFunc[t])
    requires Flows(blocks, s.producer, s.consumer, b)
    ensures Connected(s, b)
  {
    hide IsInput, Done, Produces, Consumes, Leaves, Ignores, Ordered;
    var p, q := s.producer[b], s.consumer[b];
    var i, j :| YieldedAt(blocks[p], b, i) && AwaitedAt(blocks[q], b, j) && (p == q ==> i < j);
    LoweredProduces(blocks[p], inFunc[p], b, i);
    LoweredConsumes(blocks[q], inFunc[q], b, j);
    if p == q {
      LoweredOrders(blocks[p], inFunc[p], b, i, j);
    }
    forall t | 0 <= t < |blocks| && t != p
      ensures Leaves(s.threads[t], b)
    {
      LoweredLeaves(blocks[t], inFunc[t], b);
    }
    forall t | 0 <= t < |blocks| && t != q
      ensures Ignores(s.threads[t], b)
    {
      LoweredIgnores(blocks[t], inFunc[t], b);
    }
  }

  // What the rewriter makes of the threads is a system: every interleaving of it is safe, and none
  // gets stuck when the flow has no cycle.
  lemma LoweredIsSystem(blocks: seq<seq<Instr>>, inFunc: seq<bool>, times: nat, pages: seq<nat>, capacity: seq<nat>, producer: seq<nat>, consumer: seq<nat>)
    requires |inFunc| == |blocks| && forall t :: 0 <= t < |blocks| ==> IsInput(blocks[t], inFunc[t])
    requires |pages| == |capacity| == |producer| == |consumer|
    requires forall b :: 0 <= b < |pages| ==> capacity[b] >= pages[b] && Flows(blocks, producer, consumer, b)
    requires forall t, j :: 0 <= t < |blocks| && 0 <= j < |blocks[t]| ==> Names(blocks[t][j], pages)
    ensures forall t :: 0 <= t < |blocks| ==> blocks[t] != []
    ensures IsSystem(Pipeline(blocks, inFunc, times, pages, capacity, producer, consumer))
  {
    hide Done, Names, Flows, Connected, Refers, IsInput;
    forall t | 0 <= t < |blocks|
      ensures blocks[t] != []
    {
      TerminatorYieldsNothing(blocks[t], inFunc[t]);
    }
    var s := Pipeline(blocks, inFunc, times, pages, capacity, producer, consumer);
    forall b | 0 <= b < |pages|
      ensures Connected(s, b)
    {
      FlowIsConnected(blocks, inFunc, s, b);
    }
    forall t, i | 0 <= t < |s.threads| && 0 <= i < |s.threads[t]|
      ensures Refers(s, s.threads[t][i])
    {
      LoweredRefers(blocks[t], inFunc[t], s, s.threads[t][i]);
    }
    forall t | 0 <= t < |s.threads|
      ensures s.threads[t] != []
    {
      DoneMember(blocks[t], inFunc[t], Terminator);
    }
  }

  /* The flow of the lowered threads has no cycle if that of their blocks has none */

  // A numbering of the ops of the blocks has every yield below the await of another thread that it serves.
  ghost predicate FlowsUp(blocks: seq<seq<Instr>>, producer: seq<nat>, consumer: seq<nat>, rank: seq<seq<nat>>) {
    && Numbered(blocks, rank) && |producer| == |consumer|
    && forall b: nat :: b < |producer| && producer[b] < |blocks| && consumer[b] < |blocks| && producer[b] != consumer[b] ==>
         YieldsBelow(blocks, producer[b], consumer[b], rank, b)
  }

  predicate YieldsBelow(blocks: seq<seq<Instr>>, p: nat, q: nat, rank: seq<seq<nat>>, b: nat)
    requires p < |blocks| && q < |blocks| && Numbered(blocks, rank)
  {
    forall i, j :: 0 <= i < |blocks[p]| && 0 <= j < |blocks[q]| && Yields(blocks[p][i], b) && Awaits(blocks[q][j], b) ==> rank[p][i] < rank[q][j]
  }

  // The op, among the first m and the next, that position k of the lowered block comes from; the
  // first one for what goes to the front.
  function OpAt(block: seq<Instr>, inFunc: bool, k: nat, m: nat): (i: nat)
    requires m < |block|
    ensures i <= m
  {
    if m == 0 || StartOf(block, inFunc, m) <= k then m else OpAt(block, inFunc, k, m - 1)
  }

  lemma {:induction false} OpAtGrows(block: seq<Instr>, inFunc: bool, k: nat, l: nat, m: nat)
    requires m < |block| && k <= l
    ensures OpAt(block, inFunc, k, m) <= OpAt(block, inFunc, l, m)
  {
    if m > 0 {
      OpAtGrows(block, inFunc, k, l, m - 1);
    }
  }

  lemma {:induction false} OpAtIs(block: seq<Instr>, inFunc: bool, k: nat, m: nat, i: nat)
    requires i < m < |block| && StartOf(block, inFunc, i) <= k < StartOf(block, inFunc, i + 1)
    ensures OpAt(block, inFunc, k, m) == i
  {
    hide StartOf;
    StartGrows(block, inFunc, i + 1, m);
    if m > i + 1 {
      OpAtIs(block, inFunc, k, m - 1, i);
    }
  }

  // The numbers of a block's ops, carried over to what they become.
  function LoweredRank(block: seq<Instr>, inFunc: bool, r: seq<nat>): (l: seq<nat>)
    requires block != [] && |r| == |block|
    ensures |l| == |Done(block, inFunc)|
  {
    seq(|Done(block, inFunc)|, (k: nat) requires k < |Done(block, inFunc)| => r[OpAt(block, inFunc, k, |block| - 1)])
  }

  lemma LoweredRankRises(block: seq<Instr>, inFunc: bool, r: seq<nat>)
    requires block != [] && |r| == |block| && Rises(r)
    ensures Rises(LoweredRank(block, inFunc, r))
  {
    hide Done, OpAt;
    var l := LoweredRank(block, inFunc, r);
    forall i, j | 0 <= i <= j < |l|
      ensures l[i] <= l[j]
    {
      OpAtGrows(block, inFunc, i, j, |block| - 1);
    }
  }

  // The push of a yielded buffer and the wait for an awaited one have the numbers of their ops.
  lemma PushRank(block: seq<Instr>, inFunc: bool, r: seq<nat>, b: nat, i: nat)
    requires IsInput(block, inFunc) && |r| == |block| && i < |block| && Yields(block[i], b)
    ensures Once(Done(block, inFunc), Push(b)) && LoweredRank(block, inFunc, r)[At(Done(block, inFunc), Push(b))] == r[i]
  {
    hide IsInput, Done, OpAt, StartOf, Once, At;
    PushPlace(block, inFunc, b, i);
    OpAtIs(block, inFunc, At(Done(block, inFunc), Push(b)), |block| - 1, i);
  }

  lemma WaitRank(block: seq<Instr>, inFunc: bool, r: seq<nat>, b: nat, i: nat)
    requires IsInput(block, inFunc) && |r| == |block| && i < |block| && Awaits(block[i], b)
    ensures Once(Done(block, inFunc), Wait(b)) && LoweredRank(block, inFunc, r)[At(Done(block, inFunc), Wait(b))] == r[i]
  {
    hide IsInput, Done, OpAt, StartOf, Once, At;
    WaitPlace(block, inFunc, b, i);
    OpAtIs(block, inFunc, At(Done(block, inFunc), Wait(b)), |block| - 1, i);
  }

  function LoweredRanks(blocks: seq<seq<Instr>>, inFunc: seq<bool>, rank: seq<seq<nat>>): seq<seq<nat>>
    requires |inFunc| == |blocks| && Numbered(blocks, rank) && forall t :: 0 <= t < |blocks| ==> blocks[t] != []
  {
    seq(|blocks|, (t: nat) requires t < |blocks| => LoweredRank(blocks[t], inFunc[t], rank[t]))
  }

  lemma LoweredIsNumbered(blocks: seq<seq<Instr>>, inFunc: seq<bool>, rank: seq<seq<nat>>, threads: seq<seq<Instr>>)
    requires |inFunc| == |blocks| == |threads| && Numbered(blocks, rank)
    requires forall t :: 0 <= t < |blocks| ==> blocks[t] != [] && threads[t] == Done(blocks[t], inFunc[t])
    ensures Numbered(threads, LoweredRanks(blocks, inFunc, rank))
  {
    hide Done, LoweredRank, Rises;
    forall t | 0 <= t < |blocks|
      ensures Rises(LoweredRanks(blocks, inFunc, rank)[t])
    {
      LoweredRankRises(blocks[t], inFunc[t], rank[t]);
    }
  }

  lemma LoweredPushesBelow(blocks: seq<seq<Instr>>, inFunc: seq<bool>, rank: seq<seq<nat>>, s: System, b: nat)
    requires |inFunc| == |blocks| == |s.threads| && b < |s.producer| && b < |s.consumer| && Connected(s, b)
    requires forall t :: 0 <= t < |blocks| ==> blocks[t] != [] && IsInput(blocks[t], inFunc[t]) && s.threads[t] == Done(blocks[t], inFunc[t])
    requires FlowsUp(blocks, s.producer, s.consumer, rank) && Flows(blocks, s.producer, s.consumer, b)
    requires Numbered(s.threads, LoweredRanks(blocks, inFunc, rank))
    ensures PushesBelow(s, LoweredRanks(blocks, inFunc, rank), b)
  {
    hide IsInput, Done, LoweredRank, Rises, Produces, Consumes, Leaves, Ignores, Once, At;
    var p, q := s.producer[b], s.consumer[b];
    if p != q {
      var i, j :| YieldedAt(blocks[p], b, i) && AwaitedAt(blocks[q], b, j) && (p == q ==> i < j);
      assert YieldsBelow(blocks, p, q, rank, b);
      PushRank(blocks[p], inFunc[p], rank[p], b, i);
      WaitRank(blocks[q], inFunc[q], rank[q], b, j);
    }
  }

  lemma LoweredIsAcyclic(blocks: seq<seq<Instr>>, inFunc: seq<bool>, rank: seq<seq<nat>>, s: System)
    requires |inFunc| == |blocks| == |s.threads| && IsSystem(s)
    requires forall t :: 0 <= t < |blocks| ==> blocks[t] != [] && IsInput(blocks[t], inFunc[t]) && s.threads[t] == Done(blocks[t], inFunc[t])
    requires FlowsUp(blocks, s.producer, s.consumer, rank)
    requires forall b :: 0 <= b < |s.pages| ==> Flows(blocks, s.producer, s.consumer, b)
    ensures Acyclic(s, LoweredRanks(blocks, inFunc, rank))
  {
    hide IsInput, Done, LoweredRanks, Flows, Connected, PushesBelow, YieldsBelow, Refers;
    LoweredIsNumbered(blocks, inFunc, rank, s.threads);
    forall b | 0 <= b < |s.pages|
      ensures Connected(s, b) && PushesBelow(s, LoweredRanks(blocks, inFunc, rank), b)
    {
      assert Connected(s, b);
      LoweredPushesBelow(blocks, inFunc, rank, s, b);
    }
  }

  // Any interleaving of the lowered threads keeps every buffer within its capacity; while a thread
  // is unfinished some thread can step; and one that cannot go on has executed every block and left
  // the buffers empty. `rank` numbers the ops along the flow.
  lemma LoweredRunsAreSafe(blocks: seq<seq<Instr>>, inFunc: seq<bool>, times: nat, pages: seq<nat>, capacity: seq<nat>, producer: seq<nat>, consumer: seq<nat>,
                           rank: seq<seq<nat>>, steps: seq<nat>, y: State)
    requires |inFunc| == |blocks| && forall t :: 0 <= t < |blocks| ==> blocks[t] != [] && IsInput(blocks[t], inFunc[t])
    requires |pages| == |capacity| == |producer| == |consumer|
    requires forall b :: 0 <= b < |pages| ==> capacity[b] >= pages[b] && Flows(blocks, producer, consumer, b)
    requires forall t, j :: 0 <= t < |blocks| && 0 <= j < |blocks[t]| ==> Names(blocks[t][j], pages)
    requires FlowsUp(blocks, producer, consumer, rank)
    requires var s := Pipeline(blocks, inFunc, times, pages, capacity, producer, consumer); Run(s, Start(s), steps, y)
    ensures var s := Pipeline(blocks, inFunc, times, pages, capacity, producer, consumer);
      && IsSystem(s) && Shaped(s, y) && |steps| <= AllSteps(s, |blocks|)
      && (forall b :: 0 <= b < |pages| ==> 0 <= y.held[b] <= capacity[b])
      && ((exists t :: 0 <= t < |blocks| && y.done[t] < times) ==> exists t :: 0 <= t < |blocks| && Enabled(s, y, t))
      && ((forall t :: 0 <= t < |blocks| ==> !Enabled(s, y, t)) ==>
            (forall t :: 0 <= t < |blocks| ==> y.done[t] == times) && forall b :: 0 <= b < |pages| ==> y.held[b] == 0)
  {
    hide Done, Names, Flows, Connected, Refers, IsInput, Run, AllSteps, Enabled, Acyclic, FlowsUp, LoweredRanks;
    LoweredIsSystem(blocks, inFunc, times, pages, capacity, producer, consumer);
    var s := Pipeline(blocks, inFunc, times, pages, capacity, producer, consumer);
    FlowIsNumbered(blocks, producer, consumer, rank);
    var lowered := LoweredRanks(blocks, inFunc, rank);
    LoweredIsAcyclic(blocks, inFunc, rank, s);
    RunsComplete(s, lowered, steps, y);
    forall b | 0 <= b < |pages|
      ensures 0 <= y.held[b] <= capacity[b]
    {
      OccupancyIsBounded(s, steps, y, b);
    }
    if exists t :: 0 <= t < |blocks| && y.done[t] < times {
      var t := NoDeadlock(s, lowered, steps, y);
    }
  }

  lemma FlowIsNumbered(blocks: seq<seq<Instr>>, producer: seq<nat>, consumer: seq<nat>, rank: seq<seq<nat>>)
    requires FlowsUp(blocks, producer, consumer, rank)
    ensures Numbered(blocks, rank)
  {}

  // Two threads that send a request and a reply: pages flow both ways, and the flow has no cycle.
  lemma RequestAndReply()
    ensures FlowsUp([[Yield([0]), Await([1]), Terminator], [Await([0]), Yield([1]), Terminator]], [0, 1], [1, 0], [[0, 3, 4], [1, 2, 4]])
  {}
}
