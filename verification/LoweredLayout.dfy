/**
 * The lowered block of `TTIRAwaitYieldRewriter`, position by position: the ops that stay keep their
 * order, each await and yield is replaced where it stood, reserves come first and pops last.
 */
module LoweredLayout {
  import opened CircularBuffers
  import opened AwaitYield

  // The ops the rewriter neither removes nor adds.
  function Stays(s: seq<Instr>): seq<Instr> {
    if s == [] then []
    else
      var x := s[|s| - 1];
      Stays(s[..|s| - 1]) + if x.Read? || x.Write? || x.Define? || x.Other? || x.Terminator? then [x] else []
  }

  lemma {:induction false} StaysJoin(a: seq<Instr>, b: seq<Instr>)
    ensures Stays(a + b) == Stays(a) + Stays(b)
  {
    if b == [] {
      assert a + b == a;
    } else {
      assert (a + b)[..|a + b| - 1] == a + b[..|b| - 1];
      StaysJoin(a, b[..|b| - 1]);
    }
  }

  lemma {:induction false} NoneStays(s: seq<Instr>)
    requires forall i :: 0 <= i < |s| ==> !NotLoweredYet(s[i])
    ensures Stays(s) == []
  {
    if s != [] {
      NoneStays(s[..|s| - 1]);
    }
  }

  lemma ExpandedStays(x: Instr, inFunc: bool, ys: set<nat>)
    requires NotLoweredYet(x)
    ensures Stays(Expand(x, inFunc, ys)) == Stays([x])
  {
    assert [x][..0] == [];
    match x
    case Await(cbs) => NoneStays(Waits(cbs));
    case Yield(cbs) => NoneStays(PushesFor(cbs));
    case Define(b) =>
      if inFunc && b in ys {
        StaysJoin([x], [Reserve(b)]);
        NoneStays([Reserve(b)]);
        assert [x] + [Reserve(b)] == [x, Reserve(b)];
      }
    case _ =>
  }

  lemma {:induction false} BodyStays(block: seq<Instr>, k: nat, inFunc: bool, ys: set<nat>)
    requires k <= |block| && forall i :: 0 <= i < |block| ==> NotLoweredYet(block[i])
    ensures Stays(Body(block, 0, k, inFunc, ys)) == Stays(block[..k])
  {
    hide Stays, Expand;
    if k == 0 {
      assert block[..0] == [];
    } else {
      BodyStays(block, k - 1, inFunc, ys);
      StaysJoin(Body(block, 0, k - 1, inFunc, ys), Expand(block[k - 1], inFunc, ys));
      ExpandedStays(block[k - 1], inFunc, ys);
      StaysJoin(block[..k - 1], [block[k - 1]]);
      assert block[..k] == block[..k - 1] + [block[k - 1]];
    }
  }

  lemma {:induction false} FrontIsReserves(block: seq<Instr>, k: nat)
    requires k <= |block|
    ensures forall p :: 0 <= p < |FrontReserves(block, k)| ==> FrontReserves(block, k)[p].Reserve?
  {
    if k > 0 {
      FrontIsReserves(block, k - 1);
    }
  }

  lemma {:induction false} EndIsPops(block: seq<Instr>, k: nat)
    requires k <= |block|
    ensures forall p :: 0 <= p < |EndPops(block, k)| ==> EndPops(block, k)[p].Pop?
  {
    if k > 0 {
      EndIsPops(block, k - 1);
    }
  }

  // The lowered block in its three parts and the terminator.
  lemma DoneParts(block: seq<Instr>, inFunc: bool)
    requires block != []
    ensures var n := |block| - 1;
      Done(block, inFunc) == Front(block, inFunc) + Body(block, 0, n, inFunc, Ys(block)) + EndPops(block, n) + [block[n]]
  {
    hide Body, FrontReserves, EndPops, Yielded;
    var n := |block| - 1;
    assert block[n..n] == [];
  }

  // Nothing but awaits and yields is removed, nothing but primitives is added, and the rest keeps its order.
  lemma OthersStay(block: seq<Instr>, inFunc: bool)
    requires IsInput(block, inFunc)
    ensures Stays(Done(block, inFunc)) == Stays(block)
  {
    hide Stays, Body, FrontReserves, EndPops, Yielded, Lowered, Done;
    var n := |block| - 1;
    DoneParts(block, inFunc);
    var f, b, e, t := Front(block, inFunc), Body(block, 0, n, inFunc, Ys(block)), EndPops(block, n), [block[n]];
    FrontIsReserves(block, n);
    EndIsPops(block, n);
    NoneStays(f);
    NoneStays(e);
    BodyStays(block, n, inFunc, Ys(block));
    StaysJoin(f, b);
    StaysJoin(f + b, e);
    StaysJoin(f + b + e, t);
    StaysJoin(block[..n], t);
    assert block[..n] + t == block;
  }

  // In an inner block the reserves are all before the first op, and in any block the pops are all
  // between the last and the terminator.
  lemma ReservesFirstPopsLast(block: seq<Instr>, inFunc: bool, p: nat)
    requires IsInput(block, inFunc) && p < |Done(block, inFunc)|
    ensures p == |Done(block, inFunc)| - 1 <==> Done(block, inFunc)[p] == Terminator
    ensures p < StartOf(block, inFunc, 0) ==> !inFunc && Done(block, inFunc)[p].Reserve?
    ensures StartOf(block, inFunc, |block| - 1) <= p < |Done(block, inFunc)| - 1 ==> Done(block, inFunc)[p].Pop?
    ensures StartOf(block, inFunc, 0) <= p < StartOf(block, inFunc, |block| - 1) ==>
      !Done(block, inFunc)[p].Pop? && (inFunc || !Done(block, inFunc)[p].Reserve?)
  {
    hide Body, FrontReserves, EndPops, Yielded, Lowered, Done, IsInput, Expand;
    TerminatorYieldsNothing(block, inFunc);
    var n := |block| - 1;
    DoneParts(block, inFunc);
    FrontIsReserves(block, n);
    EndIsPops(block, n);
    NoBody(block, 0, inFunc, Ys(block));
    var at := StartOf(block, inFunc, 0);
    if at <= p < StartOf(block, inFunc, n) {
      var x := Body(block, 0, n, inFunc, Ys(block))[p - at];
      BodyMember(block, 0, n, inFunc, Ys(block), x);
      var m :| 0 <= m < n && x in Expand(block[m], inFunc, Ys(block));
      NoTerminatorInside(block, inFunc, m, x);
    }
  }

  lemma NoTerminatorInside(block: seq<Instr>, inFunc: bool, m: nat, x: Instr)
    requires IsInput(block, inFunc) && m < |block| - 1 && x in Expand(block[m], inFunc, Ys(block))
    ensures x != Terminator && !x.Pop? && (inFunc || !x.Reserve?)
  {
    hide Expand;
    ExpandMember(block[m], inFunc, Ys(block), x);
  }

  /* Where an op's expansion is */

  lemma ExpandedAt(block: seq<Instr>, inFunc: bool, m: nat, x: nat)
    requires block != [] && m < |block| - 1 && x < |Expand(block[m], inFunc, Ys(block))|
    ensures StartOf(block, inFunc, m) + x < StartOf(block, inFunc, m + 1) <= |Done(block, inFunc)|
    ensures Done(block, inFunc)[StartOf(block, inFunc, m) + x] == Expand(block[m], inFunc, Ys(block))[x]
  {
    hide Body, FrontReserves, EndPops, Expand, Lowered, Yielded;
    Parts(block, inFunc, m);
    Parts(block, inFunc, m + 1);
    BodyNext(block, m, inFunc, Ys(block));
    var s, a, b := Done(block, inFunc), StartOf(block, inFunc, m), StartOf(block, inFunc, m + 1);
    var e := Expand(block[m], inFunc, Ys(block));
    assert s[..b] == s[..a] + e;
    assert s[a + x] == s[..b][a + x];
  }

  // The primitive that replaces an await or a yield in place, for its x-th buffer.
  function InPlace(op: Instr, x: nat): Instr
    requires (op.Await? || op.Yield?) && x < |op.cbs|
  {
    if op.Await? then Wait(op.cbs[x]) else Push(op.cbs[x])
  }

  lemma InPlaceAt(block: seq<Instr>, inFunc: bool, i: nat, x: nat)
    requires IsInput(block, inFunc) && i < |block| && (block[i].Await? || block[i].Yield?) && x < |block[i].cbs|
    ensures i < |block| - 1 && Once(Done(block, inFunc), InPlace(block[i], x))
    ensures At(Done(block, inFunc), InPlace(block[i], x)) == StartOf(block, inFunc, i) + x < StartOf(block, inFunc, i + 1)
  {
    hide Body, FrontReserves, EndPops, Lowered, Once, At, StartOf, Done, IsInput;
    var b := block[i].cbs[x];
    if block[i].Await? {
      WaitPlace(block, inFunc, b, i);
    } else {
      PushPlace(block, inFunc, b, i);
    }
    ExpandedAt(block, inFunc, i, x);
    OnlyPlace(Done(block, inFunc), InPlace(block[i], x), StartOf(block, inFunc, i) + x);
  }

  lemma OnlyPlace(s: seq<Instr>, y: Instr, p: nat)
    requires Once(s, y) && p < |s| && s[p] == y
    ensures At(s, y) == p
  {
    var k := At(s, y);
  }

  lemma {:induction false} EndOrder(block: seq<Instr>, k: nat, i: nat, x: nat, j: nat, y: nat) returns (p: nat, q: nat)
    requires i <= j < k <= |block| && block[i].Await? && block[j].Await? && x < |block[i].cbs| && y < |block[j].cbs|
    requires i == j ==> x < y
    ensures p < q < |EndPops(block, k)|
    ensures EndPops(block, k)[p] == Pop(block[i].cbs[x]) && EndPops(block, k)[q] == Pop(block[j].cbs[y])
  {
    var before := EndPops(block, k - 1);
    if j < k - 1 {
      p, q := EndOrder(block, k - 1, i, x, j, y);
    } else {
      q := |before| + y;
      if i == j {
        p := |before| + x;
      } else {
        EndMember(block, k - 1, Pop(block[i].cbs[x]));
        assert Awaits(block[i], block[i].cbs[x]);
        p :| p < |before| && before[p] == Pop(block[i].cbs[x]);
      }
    }
  }

  lemma ReserveAt(cbs: seq<nat>, y: nat) returns (p: nat)
    requires y < |cbs|
    ensures p == |cbs| - 1 - y < |ReservesFor(cbs)| && ReservesFor(cbs)[p] == Reserve(cbs[y])
  {
    p := |cbs| - 1 - y;
  }

  lemma EarlierReserve(block: seq<Instr>, k: nat, i: nat, x: nat) returns (q: nat)
    requires i < k <= |block| && block[i].Yield? && x < |block[i].cbs|
    ensures q < |FrontReserves(block, k)| && FrontReserves(block, k)[q] == Reserve(block[i].cbs[x])
  {
    hide FrontReserves;
    FrontMember(block, k, Reserve(block[i].cbs[x]));
    assert Yields(block[i], block[i].cbs[x]);
    q :| q < |FrontReserves(block, k)| && FrontReserves(block, k)[q] == Reserve(block[i].cbs[x]);
  }

  lemma FrontStep(block: seq<Instr>, k: nat)
    requires 0 < k <= |block|
    ensures block[k - 1].Yield? ==> FrontReserves(block, k) == ReservesFor(block[k - 1].cbs) + FrontReserves(block, k - 1)
    ensures !block[k - 1].Yield? ==> FrontReserves(block, k) == FrontReserves(block, k - 1)
  {
    hide ReservesFor;
  }

  // What is in order stays so behind another list, and a list is before what follows it.
  lemma OrderBehind(a: seq<Instr>, b: seq<Instr>, p: nat, q: nat)
    requires p < q < |b|
    ensures |a| + p < |a| + q < |a + b| && (a + b)[|a| + p] == b[p] && (a + b)[|a| + q] == b[q]
  {}

  lemma OrderAcross(a: seq<Instr>, b: seq<Instr>, p: nat, q: nat)
    requires p < |a| && q < |b|
    ensures p < |a| + q < |a + b| && (a + b)[p] == a[p] && (a + b)[|a| + q] == b[q]
  {}

  lemma OrderInFront(a: seq<Instr>, b: seq<Instr>, p: nat, q: nat)
    requires p < q < |a|
    ensures q < |a + b| && (a + b)[p] == a[p] && (a + b)[q] == a[q]
  {}

  lemma {:induction false} FrontOrder(block: seq<Instr>, k: nat, i: nat, x: nat, j: nat, y: nat) returns (p: nat, q: nat)
    requires i <= j < k <= |block| && block[i].Yield? && block[j].Yield? && x < |block[i].cbs| && y < |block[j].cbs|
    requires i == j ==> x < y
    ensures p < q < |FrontReserves(block, k)|
    ensures FrontReserves(block, k)[p] == Reserve(block[j].cbs[y]) && FrontReserves(block, k)[q] == Reserve(block[i].cbs[x])
  {
    hide FrontReserves, ReservesFor;
    var before := FrontReserves(block, k - 1);
    FrontStep(block, k);
    if j < k - 1 {
      p, q := FrontOrder(block, k - 1, i, x, j, y);
      if block[k - 1].Yield? {
        var now := ReservesFor(block[k - 1].cbs);
        OrderBehind(now, before, p, q);
        p, q := |now| + p, |now| + q;
      }
    } else {
      var now := ReservesFor(block[j].cbs);
      p := ReserveAt(block[j].cbs, y);
      if i == j {
        q := ReserveAt(block[j].cbs, x);
        OrderInFront(now, before, p, q);
      } else {
        var r := EarlierReserve(block, k - 1, i, x);
        OrderAcross(now, before, p, r);
        q := |now| + r;
      }
    }
  }

  // Waits and pushes are in the order of their awaits and yields and of the buffers there, pops in the
  // order of the waits, and the reserves of an inner block in the opposite order of the pushes.
  lemma PrimitivesInOrder(block: seq<Instr>, inFunc: bool, i: nat, x: nat, j: nat, y: nat)
    requires IsInput(block, inFunc) && i <= j < |block| && (i == j ==> x < y)
    requires (block[i].Await? || block[i].Yield?) && x < |block[i].cbs| && (block[j].Await? || block[j].Yield?) && y < |block[j].cbs|
    ensures Ordered(Done(block, inFunc), InPlace(block[i], x), InPlace(block[j], y))
    ensures block[i].Await? && block[j].Await? ==> Ordered(Done(block, inFunc), Pop(block[i].cbs[x]), Pop(block[j].cbs[y]))
    ensures block[i].Yield? && block[j].Yield? && !inFunc ==>
      Ordered(Done(block, inFunc), Reserve(block[j].cbs[y]), Reserve(block[i].cbs[x]))
  {
    hide Body, FrontReserves, EndPops, Lowered, Once, At, StartOf, Done, IsInput, Yielded;
    InPlaceAt(block, inFunc, i, x);
    InPlaceAt(block, inFunc, j, y);
    StartGrows(block, inFunc, i, j);
    if i < j {
      StartGrows(block, inFunc, i + 1, j);
    }
    DoneParts(block, inFunc);
    var n, s := |block| - 1, Done(block, inFunc);
    if block[i].Await? && block[j].Await? {
      PopPlace(block, inFunc, block[i].cbs[x], i);
      PopPlace(block, inFunc, block[j].cbs[y], j);
      var p, q := EndOrder(block, n, i, x, j, y);
      var at := |Front(block, inFunc) + Body(block, 0, n, inFunc, Ys(block))|;
      OnlyPlace(s, Pop(block[i].cbs[x]), at + p);
      OnlyPlace(s, Pop(block[j].cbs[y]), at + q);
    }
    if block[i].Yield? && block[j].Yield? && !inFunc {
      var m := ReservePlace(block, inFunc, block[i].cbs[x], i);
      var o := ReservePlace(block, inFunc, block[j].cbs[y], j);
      var p, q := FrontOrder(block, n, i, x, j, y);
      OnlyPlace(s, Reserve(block[j].cbs[y]), p);
      OnlyPlace(s, Reserve(block[i].cbs[x]), q);
    }
  }

  // An op that stays is after the primitives of earlier awaits and yields and before those of later
  // ones, and in a function's own block the reserve of a yielded buffer follows the op that defines it.
  lemma OpsInPlace(block: seq<Instr>, inFunc: bool, m: nat, i: nat, x: nat) returns (p: nat)
    requires IsInput(block, inFunc) && m < |block| - 1 && !block[m].Await? && !block[m].Yield?
    requires i < |block| && (block[i].Await? || block[i].Yield?) && x < |block[i].cbs|
    ensures p < |Done(block, inFunc)| - 1 && Done(block, inFunc)[p] == block[m]
    ensures Once(Done(block, inFunc), InPlace(block[i], x))
    ensures i < m ==> At(Done(block, inFunc), InPlace(block[i], x)) < p
    ensures m < i ==> p < At(Done(block, inFunc), InPlace(block[i], x))
    ensures inFunc && block[i].Yield? && block[m] == Define(block[i].cbs[x]) ==> Done(block, inFunc)[p + 1] == Reserve(block[i].cbs[x])
  {
    hide Body, FrontReserves, EndPops, Lowered, Once, At, StartOf, Done, IsInput, Yielded;
    p := StartOf(block, inFunc, m);
    ExpandedAt(block, inFunc, m, 0);
    InPlaceAt(block, inFunc, i, x);
    if i < m {
      StartGrows(block, inFunc, i + 1, m);
    } else if m < i {
      StartGrows(block, inFunc, m + 1, i);
    }
    BeforeTheEnd(block, inFunc, m, p);
    if inFunc && block[i].Yield? && block[m] == Define(block[i].cbs[x]) {
      YieldedMember(block, |block| - 1, block[i].cbs[x]);
      assert Yields(block[i], block[i].cbs[x]);
      ExpandedAt(block, inFunc, m, 1);
    }
  }

  lemma BeforeTheEnd(block: seq<Instr>, inFunc: bool, m: nat, p: nat)
    requires IsInput(block, inFunc) && m < |block| - 1 && p < |Done(block, inFunc)| && Done(block, inFunc)[p] == block[m]
    ensures p < |Done(block, inFunc)| - 1
  {
    hide Body, FrontReserves, EndPops, Lowered, Done, StartOf;
    ReservesFirstPopsLast(block, inFunc, p);
  }
}
