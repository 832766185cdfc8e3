/**
 * Putting the body of a const-eval function back in place of the call: the shape of the result, why
 * it is well formed, and why the function still returns what it did.
 */
module Inlining {
  import opened IR
  import opened Outlining

  // `call` is one of the body's ops and calls the function with the operands and for the results
  // it has.
  ghost predicate CallsIt(f: Func, at: nat, callee: Func) {
    && WellFormed(f) && WellFormed(callee) && NoCalls(callee.ops) && callee.ops != []
    && at < |f.ops| && f.ops[at].kind.LoadCached?
    && |f.ops[at].operands| == callee.args && f.ops[at].results == |Returned(callee)|
  }

  /* The mapping of the callee's values to the caller's */

  function Lifted(base: nat, operands: seq<Value>, v: Value): Value {
    match v
    case Arg(i) => if i < |operands| then operands[i] else v
    case Res(op, r) => Res(base + op, r)
  }

  function LiftedAll(base: nat, operands: seq<Value>, vs: seq<Value>): (r: seq<Value>)
    ensures |r| == |vs|
  {
    seq(|vs|, (i: nat) requires i < |vs| => Lifted(base, operands, vs[i]))
  }

  function LiftOp(base: nat, operands: seq<Value>): Op -> Op {
    (op: Op) => op.(id := base + op.id, operands := LiftedAll(base, operands, op.operands))
  }

  // The clones put before the call: the callee's ops without its terminator.
  function Clones(base: nat, operands: seq<Value>, callee: Func): seq<Op>
    requires callee.ops != []
  {
    Mapped(LiftOp(base, operands), Front(callee.ops))
  }

  // What stands for the results of the call.
  function Rets(base: nat, operands: seq<Value>, callee: Func): seq<Value>
    requires callee.ops != []
  {
    LiftedAll(base, operands, Returned(callee))
  }

  /* The caller with the call's uses forwarded */

  function Forward(call: nat, rets: seq<Value>, v: Value): Value {
    if v.Res? && v.op == call && v.result < |rets| then rets[v.result] else v
  }

  function ForwardAll(call: nat, rets: seq<Value>, vs: seq<Value>): (r: seq<Value>)
    ensures |r| == |vs|
  {
    seq(|vs|, (i: nat) requires i < |vs| => Forward(call, rets, vs[i]))
  }

  function ForwardOp(call: nat, rets: seq<Value>): Op -> Op {
    (op: Op) => op.(operands := ForwardAll(call, rets, op.operands))
  }

  // The body after cloning, forwarding and erasing the call.
  function Inlined(f: Func, at: nat, callee: Func, base: nat): Func
    requires at < |f.ops| && callee.ops != []
  {
    var call := f.ops[at];
    var rets := Rets(base, call.operands, callee);
    f.(ops := Filter(Outside({call.id}),
                     Mapped(ForwardOp(call.id, rets), f.ops[..at] + Clones(base, call.operands, callee) + f.ops[at..])))
  }

  lemma LiftedMembers(base: nat, operands: seq<Value>, vs: seq<Value>, u: Value)
    ensures u in LiftedAll(base, operands, vs) <==> exists v :: v in vs && u == Lifted(base, operands, v)
  {
    var r := LiftedAll(base, operands, vs);
    if u in r {
      var i :| 0 <= i < |r| && r[i] == u;
      assert vs[i] in vs;
    }
    if v :| v in vs && u == Lifted(base, operands, v) {
      var i :| 0 <= i < |vs| && vs[i] == v;
      assert r[i] == u;
    }
  }

  lemma ForwardMembers(call: nat, rets: seq<Value>, vs: seq<Value>, u: Value)
    ensures u in ForwardAll(call, rets, vs) <==> exists v :: v in vs && u == Forward(call, rets, v)
  {
    var r := ForwardAll(call, rets, vs);
    if u in r {
      var i :| 0 <= i < |r| && r[i] == u;
      assert vs[i] in vs;
    }
    if v :| v in vs && u == Forward(call, rets, v) {
      var i :| 0 <= i < |vs| && vs[i] == v;
      assert r[i] == u;
    }
  }

  // Forwarding leaves alone what does not read the call.
  lemma ForwardNothing(call: nat, rets: seq<Value>, op: Op)
    requires forall v :: v in op.operands ==> !(v.Res? && v.op == call)
    ensures ForwardOp(call, rets)(op) == op
  {
    var r := ForwardAll(call, rets, op.operands);
    forall i | 0 <= i < |r|
      ensures r[i] == op.operands[i]
    {
      assert op.operands[i] in op.operands;
    }
    assert r == op.operands;
  }

  // The fresh numbers start above every number of the body.
  ghost predicate Above(ops: seq<Op>, base: nat) {
    forall op :: op in ops ==> op.id < base
  }

  lemma EarlierReadsNoCall(f: Func, at: nat, op: Op, v: Value)
    requires Ordered(f.args, f.ops) && at < |f.ops| && op in f.ops[..at + 1] && v in op.operands
    ensures !(v.Res? && v.op == f.ops[at].id)
    ensures Defined(f.args, f.ops[..at], v)
  {
    OrderedPrefix(f.args, f.ops, at + 1);
    var before, call := f.ops[..at], f.ops[at];
    assert f.ops[..at + 1] == before + [call];
    assert Front(f.ops[..at + 1]) == before && Last(f.ops[..at + 1]) == call;
    if op in before {
      OperandDefined(f.args, before, op, v);
    }
  }

  // A clone reads the call's operands or earlier clones.
  lemma CloneReads(f: Func, at: nat, callee: Func, base: nat, k: nat, u: Value)
    requires CallsIt(f, at, callee) && Above(f.ops, base) && k < |callee.ops|
    requires u in LiftedAll(base, f.ops[at].operands, callee.ops[k].operands)
    ensures Defined(f.args, f.ops[..at] + Mapped(LiftOp(base, f.ops[at].operands), callee.ops[..k]), u)
    ensures !(u.Res? && u.op == f.ops[at].id)
  {
    hide LiftedAll, EndsInTerminator, FromShared, Ordered, Mapped;
    var operands := f.ops[at].operands;
    LiftedMembers(base, operands, callee.ops[k].operands, u);
    var v :| v in callee.ops[k].operands && u == Lifted(base, operands, v);
    OrderedReads(callee.args, callee.ops, k, v);
    match v
    case Arg(i) => CloneReadsCall(f, at, callee, base, k, i);
    case Res(_, _) => CloneReadsClone(f, at, callee, base, k, v);
  }

  lemma CloneReadsCall(f: Func, at: nat, callee: Func, base: nat, k: nat, i: nat)
    requires CallsIt(f, at, callee) && k < |callee.ops| && i < |f.ops[at].operands|
    ensures var u := f.ops[at].operands[i];
      && Defined(f.args, f.ops[..at] + Mapped(LiftOp(base, f.ops[at].operands), callee.ops[..k]), u)
      && !(u.Res? && u.op == f.ops[at].id)
  {
    hide EndsInTerminator, FromShared, Ordered, Mapped, Defined;
    assert f.ops[at] in f.ops[..at + 1];
    EarlierReadsNoCall(f, at, f.ops[at], f.ops[at].operands[i]);
    DefinedMore(f.args, f.ops[..at], Mapped(LiftOp(base, f.ops[at].operands), callee.ops[..k]), f.ops[at].operands[i]);
  }

  lemma CloneReadsClone(f: Func, at: nat, callee: Func, base: nat, k: nat, v: Value)
    requires CallsIt(f, at, callee) && Above(f.ops, base) && k < |callee.ops| && v.Res? && Defined(callee.args, callee.ops[..k], v)
    ensures var u := Lifted(base, f.ops[at].operands, v);
      && Defined(f.args, f.ops[..at] + Mapped(LiftOp(base, f.ops[at].operands), callee.ops[..k]), u)
      && !(u.Res? && u.op == f.ops[at].id)
  {
    hide EndsInTerminator, FromShared, Ordered, Mapped, LiftedAll;
    var g := LiftOp(base, f.ops[at].operands);
    var q :| q in callee.ops[..k] && Defines(q, v);
    assert f.ops[at] in f.ops;
    MappedMembers(g, callee.ops[..k], g(q));
    assert Defines(g(q), Lifted(base, f.ops[at].operands, v));
  }

  lemma DefinedMore(args: nat, ops: seq<Op>, more: seq<Op>, v: Value)
    requires Defined(args, ops, v)
    ensures Defined(args, ops + more, v)
  {}

  lemma {:induction false} OrderedClones(f: Func, at: nat, callee: Func, base: nat, k: nat)
    requires CallsIt(f, at, callee) && Above(f.ops, base) && k <= |callee.ops|
    ensures Ordered(f.args, f.ops[..at] + Mapped(LiftOp(base, f.ops[at].operands), callee.ops[..k]))
  {
    hide LiftedAll, EndsInTerminator, FromShared, Defined, Mapped;
    var g := LiftOp(base, f.ops[at].operands);
    MappedNone(g);
    if k == 0 {
      OrderedPrefix(f.args, f.ops, at);
      assert callee.ops[..0] == [];
      assert f.ops[..at] + [] == f.ops[..at];
    } else {
      OrderedClones(f, at, callee, base, k - 1);
      var made := f.ops[..at] + Mapped(g, callee.ops[..k - 1]);
      var op := callee.ops[k - 1];
      assert callee.ops[..k] == callee.ops[..k - 1] + [op];
      MappedSnoc(g, callee.ops[..k - 1], op);
      assert f.ops[..at] + Mapped(g, callee.ops[..k]) == made + [g(op)];
      forall u | u in g(op).operands
        ensures Defined(f.args, made, u)
      {
        CloneReads(f, at, callee, base, k - 1, u);
      }
      CloneIsNew(f, at, callee, base, k - 1);
      OrderedAppend(f.args, made, g(op));
    }
  }

  lemma CloneIsNew(f: Func, at: nat, callee: Func, base: nat, k: nat)
    requires CallsIt(f, at, callee) && Above(f.ops, base) && k < |callee.ops|
    ensures !HasId(f.ops[..at] + Mapped(LiftOp(base, f.ops[at].operands), callee.ops[..k]), base + callee.ops[k].id)
  {
    hide LiftedAll, EndsInTerminator, FromShared, Mapped;
    var g := LiftOp(base, f.ops[at].operands);
    OrderedPrefix(callee.args, callee.ops, k + 1);
    assert Front(callee.ops[..k + 1]) == callee.ops[..k] && Last(callee.ops[..k + 1]) == callee.ops[k];
    forall x | x in f.ops[..at] + Mapped(g, callee.ops[..k])
      ensures x.id != base + callee.ops[k].id
    {
      if x in Mapped(g, callee.ops[..k]) {
        MappedMembers(g, callee.ops[..k], x);
      } else {
        assert x in f.ops;
      }
    }
  }

  /* The rest of the body */

  // What the first k ops of the body become.
  function Done(f: Func, at: nat, callee: Func, base: nat, k: nat): seq<Op>
    requires at < k <= |f.ops| && callee.ops != []
  {
    var call := f.ops[at];
    Filter(Outside({call.id}),
           Mapped(ForwardOp(call.id, Rets(base, call.operands, callee)), f.ops[..at] + Clones(base, call.operands, callee) + f.ops[at..k]))
  }

  lemma CloneReadsNoCall(f: Func, at: nat, callee: Func, base: nat, x: Op, u: Value)
    requires CallsIt(f, at, callee) && Above(f.ops, base)
    requires x in Clones(base, f.ops[at].operands, callee) && u in x.operands
    ensures !(u.Res? && u.op == f.ops[at].id)
    ensures x.id != f.ops[at].id
  {
    hide LiftedAll, EndsInTerminator, FromShared, Ordered, Defined;
    var clones := Clones(base, f.ops[at].operands, callee);
    var k :| 0 <= k < |clones| && clones[k] == x;
    assert f.ops[at] in f.ops;
    CloneReads(f, at, callee, base, k, u);
  }

  lemma CloneIdAbove(f: Func, at: nat, callee: Func, base: nat, x: Op)
    requires CallsIt(f, at, callee) && Above(f.ops, base) && x in Clones(base, f.ops[at].operands, callee)
    ensures x.id >= base && x.id != f.ops[at].id
  {
    hide LiftedAll, EndsInTerminator, FromShared, Ordered, Defined;
    assert f.ops[at] in f.ops;
    MappedMembers(LiftOp(base, f.ops[at].operands), Front(callee.ops), x);
  }

  // Nothing before the call, and no clone, reads the call.
  lemma StartStays(f: Func, at: nat, callee: Func, base: nat, x: Op)
    requires CallsIt(f, at, callee) && Above(f.ops, base)
    requires x in f.ops[..at] || x in Clones(base, f.ops[at].operands, callee)
    ensures x.id != f.ops[at].id
    ensures ForwardOp(f.ops[at].id, Rets(base, f.ops[at].operands, callee))(x) == x
  {
    hide LiftedAll, EndsInTerminator, FromShared, Clones, Rets, ForwardOp, Ordered;
    var call := f.ops[at];
    forall u | u in x.operands
      ensures !(u.Res? && u.op == call.id)
    {
      if x in f.ops[..at] {
        assert f.ops[..at + 1] == f.ops[..at] + [call];
        EarlierReadsNoCall(f, at, x, u);
      } else {
        CloneReadsNoCall(f, at, callee, base, x, u);
      }
    }
    if x in f.ops[..at] {
      IdsDiffer(f, at, x);
    } else {
      CloneIdAbove(f, at, callee, base, x);
    }
    ForwardNothing(call.id, Rets(base, call.operands, callee), x);
  }

  lemma IdsDiffer(f: Func, at: nat, x: Op)
    requires Ordered(f.args, f.ops) && at < |f.ops| && x in f.ops[..at]
    ensures x.id != f.ops[at].id
  {
    OrderedPrefix(f.args, f.ops, at + 1);
    assert Front(f.ops[..at + 1]) == f.ops[..at] && Last(f.ops[..at + 1]) == f.ops[at];
  }

  lemma DoneFirst(f: Func, at: nat, callee: Func, base: nat)
    requires CallsIt(f, at, callee) && Above(f.ops, base)
    ensures Done(f, at, callee, base, at + 1) == f.ops[..at] + Clones(base, f.ops[at].operands, callee)
  {
    assert forall r :: ForwardOp(f.ops[at].id, r)(f.ops[at]).id == f.ops[at].id;
    hide LiftedAll, EndsInTerminator, FromShared, Clones, Rets, ForwardOp, Ordered, Above;
    var call := f.ops[at];
    var clones := Clones(base, call.operands, callee);
    var start := f.ops[..at] + clones;
    var g := ForwardOp(call.id, Rets(base, call.operands, callee));
    assert start + f.ops[at..at + 1] == start + [call];
    MappedSnoc(g, start, call);
    FilterSnoc(Outside({call.id}), Mapped(g, start), g(call));
    forall i | 0 <= i < |start|
      ensures g(start[i]) == start[i] && start[i].id != call.id
    {
      assert start[i] in f.ops[..at] || start[i] in clones;
      StartStays(f, at, callee, base, start[i]);
    }
    assert Mapped(g, start) == start;
    FilterAll(Outside({call.id}), start);
  }

  lemma DoneNext(f: Func, at: nat, callee: Func, base: nat, k: nat)
    requires CallsIt(f, at, callee) && at < k < |f.ops|
    ensures Done(f, at, callee, base, k + 1)
            == Done(f, at, callee, base, k) + [ForwardOp(f.ops[at].id, Rets(base, f.ops[at].operands, callee))(f.ops[k])]
  {
    hide LiftedAll, EndsInTerminator, FromShared, Clones, Rets, Mapped;
    var call := f.ops[at];
    var g := ForwardOp(call.id, Rets(base, call.operands, callee));
    var before := f.ops[..at] + Clones(base, call.operands, callee) + f.ops[at..k];
    assert f.ops[..at] + Clones(base, call.operands, callee) + f.ops[at..k + 1] == before + [f.ops[k]];
    MappedSnoc(g, before, f.ops[k]);
    FilterSnoc(Outside({call.id}), Mapped(g, before), g(f.ops[k]));
    IdsDistinctAt(f, at, k);
  }

  lemma IdsDistinctAt(f: Func, at: nat, k: nat)
    requires Ordered(f.args, f.ops) && at < k < |f.ops|
    ensures f.ops[k].id != f.ops[at].id
  {
    assert f.ops[..k][at] == f.ops[at];
    IdsDiffer(f, k, f.ops[at]);
  }

  lemma DoneMembers(f: Func, at: nat, callee: Func, base: nat, k: nat, x: Op)
    requires CallsIt(f, at, callee) && Above(f.ops, base) && at < k <= |f.ops|
    ensures x in Done(f, at, callee, base, k) <==>
      || x in Clones(base, f.ops[at].operands, callee)
      || exists q :: q in f.ops[..k] && q.id != f.ops[at].id && x == ForwardOp(f.ops[at].id, Rets(base, f.ops[at].operands, callee))(q)
  {
    hide LiftedAll, EndsInTerminator, FromShared, Clones, Rets, Mapped, Ordered, Above, Filter;
    var call := f.ops[at];
    var clones := Clones(base, call.operands, callee);
    var g := ForwardOp(call.id, Rets(base, call.operands, callee));
    var l := f.ops[..at] + clones + f.ops[at..k];
    FilterMembers(Outside({call.id}), Mapped(g, l), x);
    MappedMembers(g, l, x);
    assert f.ops[..k] == f.ops[..at] + f.ops[at..k];
    if x in clones {
      StartStays(f, at, callee, base, x);
      assert x in l;
    }
    if x in Done(f, at, callee, base, k) {
      var q :| q in l && x == g(q);
      if q in clones {
        StartStays(f, at, callee, base, q);
      } else {
        assert q in f.ops[..k];
      }
    }
  }

  // What a later op reads is defined once the call is gone.
  lemma ForwardedReadDefined(f: Func, at: nat, callee: Func, base: nat, k: nat, u: Value)
    requires CallsIt(f, at, callee) && Above(f.ops, base) && at < k < |f.ops|
    requires u in ForwardAll(f.ops[at].id, Rets(base, f.ops[at].operands, callee), f.ops[k].operands)
    ensures Defined(f.args, Done(f, at, callee, base, k), u)
  {
    hide LiftedAll, EndsInTerminator, FromShared, Clones, Ordered, Above, Done, ForwardAll;
    var call := f.ops[at];
    var rets := Rets(base, call.operands, callee);
    ForwardMembers(call.id, rets, f.ops[k].operands, u);
    var v :| v in f.ops[k].operands && u == Forward(call.id, rets, v);
    OrderedReads(f.args, f.ops, k, v);
    if v.Res? {
      var q :| q in f.ops[..k] && Defines(q, v);
      if q.id == call.id {
        UniqueOp(f.args, f.ops, q, call);
        RetDefined(f, at, callee, base, k, v.result);
      } else {
        var x := ForwardOp(call.id, rets)(q);
        DoneMembers(f, at, callee, base, k, x);
        assert Defines(x, v);
      }
    }
  }

  lemma RetDefined(f: Func, at: nat, callee: Func, base: nat, k: nat, r: nat)
    requires CallsIt(f, at, callee) && Above(f.ops, base) && at < k <= |f.ops| && r < |Returned(callee)|
    ensures Defined(f.args, Done(f, at, callee, base, k), Rets(base, f.ops[at].operands, callee)[r])
  {
    hide FromShared, Ordered, Above, Done, LiftedAll, EndsInTerminator;
    var call := f.ops[at];
    var n := |callee.ops| - 1;
    var u := Rets(base, call.operands, callee)[r];
    assert u in LiftedAll(base, call.operands, callee.ops[n].operands);
    CloneReads(f, at, callee, base, n, u);
    assert callee.ops[..n] == Front(callee.ops);
    StartIn(f, at, callee, base, k);
    var start := f.ops[..at] + Clones(base, call.operands, callee);
    var done := Done(f, at, callee, base, k);
    assert done == start + done[|start|..];
    DefinedMore(f.args, start, done[|start|..], u);
  }

  lemma {:induction false} StartIn(f: Func, at: nat, callee: Func, base: nat, k: nat)
    requires CallsIt(f, at, callee) && Above(f.ops, base) && at < k <= |f.ops|
    ensures f.ops[..at] + Clones(base, f.ops[at].operands, callee) <= Done(f, at, callee, base, k)
  {
    hide CallsIt, Done, Above, Clones;
    CalleeHasOps(f, at, callee);
    if k == at + 1 {
      DoneFirst(f, at, callee, base);
    } else {
      StartIn(f, at, callee, base, k - 1);
      DoneNext(f, at, callee, base, k - 1);
    }
  }

  lemma CalleeHasOps(f: Func, at: nat, callee: Func)
    requires CallsIt(f, at, callee)
    ensures callee.ops != [] && at < |f.ops|
  {}

  lemma ClonesOfFront(base: nat, operands: seq<Value>, callee: Func)
    requires callee.ops != []
    ensures Clones(base, operands, callee) == Mapped(LiftOp(base, operands), callee.ops[..|callee.ops| - 1])
  {}

  lemma {:induction false} OrderedDone(f: Func, at: nat, callee: Func, base: nat, k: nat)
    requires CallsIt(f, at, callee) && Above(f.ops, base) && at < k <= |f.ops|
    ensures Ordered(f.args, Done(f, at, callee, base, k))
  {
    hide Done, Above, Clones, Rets, FromShared, EndsInTerminator, Defined, Ordered;
    if k == at + 1 {
      DoneFirst(f, at, callee, base);
      OrderedClones(f, at, callee, base, |callee.ops| - 1);
      ClonesOfFront(base, f.ops[at].operands, callee);
    } else {
      OrderedDone(f, at, callee, base, k - 1);
      DoneNext(f, at, callee, base, k - 1);
      var done := Done(f, at, callee, base, k - 1);
      var x := ForwardOp(f.ops[at].id, Rets(base, f.ops[at].operands, callee))(f.ops[k - 1]);
      forall u | u in x.operands
        ensures Defined(f.args, done, u)
      {
        ForwardedReadDefined(f, at, callee, base, k - 1, u);
      }
      NewInDone(f, at, callee, base, k - 1);
      OrderedAppend(f.args, done, x);
    }
  }

  lemma NewInDone(f: Func, at: nat, callee: Func, base: nat, k: nat)
    requires CallsIt(f, at, callee) && Above(f.ops, base) && at < k < |f.ops|
    ensures !HasId(Done(f, at, callee, base, k), f.ops[k].id)
  {
    hide Done, Clones, Rets, FromShared, EndsInTerminator, Defined, Ordered;
    forall x | x in Done(f, at, callee, base, k)
      ensures x.id != f.ops[k].id
    {
      DoneMembers(f, at, callee, base, k, x);
      assert f.ops[k] in f.ops;
      if x in Clones(base, f.ops[at].operands, callee) {
        CloneIdAbove(f, at, callee, base, x);
      } else {
        var q :| q in f.ops[..k] && q.id == x.id;
        IdsDiffer(f, k, q);
      }
    }
  }

  lemma InlinedIsDone(f: Func, at: nat, callee: Func, base: nat)
    requires CallsIt(f, at, callee)
    ensures Inlined(f, at, callee, base) == f.(ops := Done(f, at, callee, base, |f.ops|))
  {
    hide CallsIt;
    CalleeHasOps(f, at, callee);
    assert f.ops[at..|f.ops|] == f.ops[at..];
  }

  // The body afterwards: the clones, and every op but the call with its uses forwarded.
  lemma InlinedMembers(f: Func, at: nat, callee: Func, base: nat, x: Op)
    requires CallsIt(f, at, callee) && Above(f.ops, base)
    ensures x in Inlined(f, at, callee, base).ops <==>
      || x in Clones(base, f.ops[at].operands, callee)
      || exists q :: q in f.ops && q.id != f.ops[at].id && x == ForwardOp(f.ops[at].id, Rets(base, f.ops[at].operands, callee))(q)
  {
    hide Done, Clones, Rets, WellFormed, Inlined;
    InlinedIsDone(f, at, callee, base);
    DoneMembers(f, at, callee, base, |f.ops|, x);
    assert f.ops[..|f.ops|] == f.ops;
  }

  lemma CloneSource(callee: Func, base: nat, operands: seq<Value>, x: Op) returns (op: Op)
    requires callee.ops != [] && x in Clones(base, operands, callee)
    ensures op in Front(callee.ops) && op in callee.ops && x == LiftOp(base, operands)(op)
  {
    hide LiftOp;
    MappedMembers(LiftOp(base, operands), Front(callee.ops), x);
    op :| op in Front(callee.ops) && x == LiftOp(base, operands)(op);
  }

  lemma ClonedIn(callee: Func, base: nat, operands: seq<Value>, op: Op)
    requires callee.ops != [] && op in Front(callee.ops)
    ensures LiftOp(base, operands)(op) in Clones(base, operands, callee)
  {
    MappedMembers(LiftOp(base, operands), Front(callee.ops), LiftOp(base, operands)(op));
  }

  lemma InlinedEnds(f: Func, at: nat, callee: Func, base: nat)
    requires CallsIt(f, at, callee) && Above(f.ops, base)
    ensures EndsInTerminator(Inlined(f, at, callee, base).ops)
    ensures Returned(Inlined(f, at, callee, base)) == ForwardAll(f.ops[at].id, Rets(base, f.ops[at].operands, callee), Returned(f))
  {
    hide Done, Clones, Rets, Ordered, FromShared, Above, Inlined, LiftedAll, ForwardAll;
    var n := |f.ops| - 1;
    InlinedIsDone(f, at, callee, base);
    DoneNext(f, at, callee, base, n);
    var done := Done(f, at, callee, base, n);
    forall x | x in done
      ensures !x.kind.Terminator?
    {
      DoneMembers(f, at, callee, base, n, x);
      if x in Clones(base, f.ops[at].operands, callee) {
        var op := CloneSource(callee, base, f.ops[at].operands, x);
      }
    }
    var after := Done(f, at, callee, base, n + 1);
    assert Front(after) == done;
  }

  lemma CloneFromShared(f: Func, at: nat, callee: Func, base: nat, x: Op, u: Value)
    requires CallsIt(f, at, callee) && Above(f.ops, base)
    requires x in Clones(base, f.ops[at].operands, callee) && (x.kind.Creation? || x.kind.Shared?) && u in x.operands
    ensures IsShared(Inlined(f, at, callee, base).ops, u)
  {
    hide Clones, Rets, Ordered, Above, Inlined, LiftedAll;
    var operands := f.ops[at].operands;
    var op := CloneSource(callee, base, operands, x);
    LiftedMembers(base, operands, op.operands, u);
    var v :| v in op.operands && u == Lifted(base, operands, v);
    assert IsShared(callee.ops, v);
    var s :| s in callee.ops && s.kind.Shared? && Defines(s, v);
    assert callee.ops == Front(callee.ops) + [Last(callee.ops)];
    ClonedIn(callee, base, operands, s);
    InlinedMembers(f, at, callee, base, LiftOp(base, operands)(s));
    assert Defines(LiftOp(base, operands)(s), u);
  }

  lemma SharedReadStays(f: Func, at: nat, callee: Func, base: nat, u: Value)
    requires CallsIt(f, at, callee) && Above(f.ops, base) && IsShared(f.ops, u)
    ensures Forward(f.ops[at].id, Rets(base, f.ops[at].operands, callee), u) == u
    ensures IsShared(Inlined(f, at, callee, base).ops, u)
  {
    hide Clones, Rets, Ordered, Above, Inlined, LiftedAll, FromShared, EndsInTerminator;
    var s :| s in f.ops && s.kind.Shared? && Defines(s, u);
    assert f.ops[at] in f.ops;
    if s.id == f.ops[at].id {
      UniqueOp(f.args, f.ops, s, f.ops[at]);
    }
    var x := ForwardOp(f.ops[at].id, Rets(base, f.ops[at].operands, callee))(s);
    InlinedMembers(f, at, callee, base, x);
    assert Defines(x, u);
  }

  lemma InlinedFromShared(f: Func, at: nat, callee: Func, base: nat)
    requires CallsIt(f, at, callee) && Above(f.ops, base)
    ensures FromShared(Inlined(f, at, callee, base).ops)
  {
    hide Clones, Rets, Ordered, Above, Inlined, LiftedAll, ForwardAll, EndsInTerminator, IsShared;
    var rets := Rets(base, f.ops[at].operands, callee);
    forall x, u | x in Inlined(f, at, callee, base).ops && (x.kind.Creation? || x.kind.Shared?) && u in x.operands
      ensures IsShared(Inlined(f, at, callee, base).ops, u)
    {
      InlinedMembers(f, at, callee, base, x);
      if x in Clones(base, f.ops[at].operands, callee) {
        CloneFromShared(f, at, callee, base, x, u);
      } else {
        var q :| q in f.ops && q.id != f.ops[at].id && x == ForwardOp(f.ops[at].id, rets)(q);
        ForwardMembers(f.ops[at].id, rets, q.operands, u);
        var v :| v in q.operands && u == Forward(f.ops[at].id, rets, v);
        SharedReadStays(f, at, callee, base, v);
      }
    }
  }

  lemma InlinedWellFormed(f: Func, at: nat, callee: Func, base: nat)
    requires CallsIt(f, at, callee) && Above(f.ops, base)
    ensures WellFormed(Inlined(f, at, callee, base))
  {
    hide Done, Clones, Rets, Ordered, FromShared, EndsInTerminator, Above, Inlined;
    InlinedIsDone(f, at, callee, base);
    OrderedDone(f, at, callee, base, |f.ops|);
    InlinedEnds(f, at, callee, base);
    InlinedFromShared(f, at, callee, base);
  }

  /* Meaning */

  function InnerEnv(interp: Interp, callee: Func, args: seq<int>): Env {
    Eval(interp, NoCall, callee.ops, ArgEnv(args))
  }

  // The values after inlining: those of the call's execution for the clones, the old ones otherwise.
  function Joined(base: nat, inner: Env, env: Env): Env {
    (v: Value) => if v.Res? && v.op >= base then inner(Res(v.op - base, v.result)) else env(v)
  }

  lemma LiftedValue(interp: Interp, f: Func, at: nat, callee: Func, base: nat, env: Env, op: Op, v: Value)
    requires CallsIt(f, at, callee) && Above(f.ops, base) && op in callee.ops && v in op.operands
    ensures var operands := f.ops[at].operands;
      Joined(base, InnerEnv(interp, callee, Values(env, operands)), env)(Lifted(base, operands, v))
      == InnerEnv(interp, callee, Values(env, operands))(v)
  {
    hide EndsInTerminator, FromShared, Eval, Ordered;
    var call := f.ops[at];
    var args := Values(env, call.operands);
    EvalSolves(interp, NoCall, callee.args, callee.ops, ArgEnv(args));
    OperandDefined(callee.args, callee.ops, op, v);
    match v
    case Arg(i) =>
      assert call in f.ops && call.operands[i] in call.operands;
      OperandDefined(f.args, f.ops, call, call.operands[i]);
    case Res(_, _) =>
  }

  lemma LiftedValues(interp: Interp, f: Func, at: nat, callee: Func, base: nat, env: Env, op: Op)
    requires CallsIt(f, at, callee) && Above(f.ops, base) && op in callee.ops
    ensures var operands := f.ops[at].operands; var inner := InnerEnv(interp, callee, Values(env, operands));
      Values(Joined(base, inner, env), LiftedAll(base, operands, op.operands)) == Values(inner, op.operands)
  {
    hide WellFormed, Above, InnerEnv, Joined, Lifted;
    var operands := f.ops[at].operands;
    var inner := InnerEnv(interp, callee, Values(env, operands));
    var lifted := LiftedAll(base, operands, op.operands);
    forall i | 0 <= i < |op.operands|
      ensures Joined(base, inner, env)(lifted[i]) == inner(op.operands[i])
    {
      assert op.operands[i] in op.operands;
      LiftedValue(interp, f, at, callee, base, env, op, op.operands[i]);
    }
    assert Values(Joined(base, inner, env), lifted) == Values(inner, op.operands);
  }

  lemma CloneSolved(interp: Interp, calls: Calls, f: Func, at: nat, callee: Func, base: nat, env: Env, x: Op, r: nat)
    requires CallsIt(f, at, callee) && Above(f.ops, base)
    requires x in Clones(base, f.ops[at].operands, callee) && r < x.results
    ensures var joined := Joined(base, InnerEnv(interp, callee, Values(env, f.ops[at].operands)), env);
      joined(Res(x.id, r)) == ResultOf(interp, calls, x, joined, r)
  {
    hide Above, Clones, Ordered, FromShared, EndsInTerminator, LiftedAll, Eval;
    var operands := f.ops[at].operands;
    var args := Values(env, operands);
    var inner := InnerEnv(interp, callee, args);
    var op := CloneSource(callee, base, operands, x);
    EvalSolves(interp, NoCall, callee.args, callee.ops, ArgEnv(args));
    LiftedValues(interp, f, at, callee, base, env, op);
    assert inner(Res(op.id, r)) == ResultOf(interp, NoCall, op, inner, r);
  }

  // Forwarding a use of the call reads the value the call computed.
  lemma ForwardedValue(interp: Interp, consts: seq<Func>, f: Func, at: nat, callee: Func, base: nat, env: Env, op: Op, v: Value)
    requires CallsIt(f, at, callee) && Above(f.ops, base) && Solves(interp, CallsTo(interp, consts), f.ops, env)
    requires f.ops[at].kind.callee < |consts| && consts[f.ops[at].kind.callee] == callee
    requires op in f.ops && v in op.operands
    ensures var operands := f.ops[at].operands; var inner := InnerEnv(interp, callee, Values(env, operands));
      Joined(base, inner, env)(Forward(f.ops[at].id, Rets(base, operands, callee), v)) == env(v)
  {
    hide Ordered, FromShared, LiftedAll, Eval;
    var call := f.ops[at];
    var args := Values(env, call.operands);
    var inner := InnerEnv(interp, callee, args);
    OperandDefined(f.args, f.ops, op, v);
    if v.Res? {
      var q :| q in f.ops && Defines(q, v);
      assert call in f.ops;
      if q.id == call.id {
        UniqueOp(f.args, f.ops, q, call);
        LiftedValues(interp, f, at, callee, base, env, Last(callee.ops));
        var rets := Rets(base, call.operands, callee);
        assert Values(Joined(base, inner, env), rets)[v.result] == Joined(base, inner, env)(rets[v.result]);
        CallValue(interp, consts, f, at, callee, env, v.result);
      }
    }
  }

  lemma CallValue(interp: Interp, consts: seq<Func>, f: Func, at: nat, callee: Func, env: Env, r: nat)
    requires CallsIt(f, at, callee) && Solves(interp, CallsTo(interp, consts), f.ops, env)
    requires f.ops[at].kind.callee < |consts| && consts[f.ops[at].kind.callee] == callee && r < f.ops[at].results
    ensures env(Res(f.ops[at].id, r)) == InnerEnv(interp, callee, Values(env, f.ops[at].operands))(Returned(callee)[r])
  {
    hide WellFormed, Eval;
    var call := f.ops[at];
    assert call in f.ops;
    var args := Values(env, call.operands);
    assert env(Res(call.id, r)) == ResultOf(interp, CallsTo(interp, consts), call, env, r);
    assert ResultOf(interp, CallsTo(interp, consts), call, env, r) == CallsTo(interp, consts)(call.kind.callee, args, r);
    assert CallsTo(interp, consts)(call.kind.callee, args, r) == Run(interp, NoCall, callee, args)[r];
  }

  lemma ForwardedValues(interp: Interp, consts: seq<Func>, f: Func, at: nat, callee: Func, base: nat, env: Env, op: Op)
    requires CallsIt(f, at, callee) && Above(f.ops, base) && Solves(interp, CallsTo(interp, consts), f.ops, env)
    requires f.ops[at].kind.callee < |consts| && consts[f.ops[at].kind.callee] == callee && op in f.ops
    ensures var operands := f.ops[at].operands; var inner := InnerEnv(interp, callee, Values(env, operands));
      Values(Joined(base, inner, env), ForwardAll(f.ops[at].id, Rets(base, operands, callee), op.operands)) == Values(env, op.operands)
  {
    hide WellFormed, Above, InnerEnv, Joined, Forward, Solves, Rets;
    var operands := f.ops[at].operands;
    var inner := InnerEnv(interp, callee, Values(env, operands));
    var forwarded := ForwardAll(f.ops[at].id, Rets(base, operands, callee), op.operands);
    forall i | 0 <= i < |op.operands|
      ensures Joined(base, inner, env)(forwarded[i]) == env(op.operands[i])
    {
      assert op.operands[i] in op.operands;
      ForwardedValue(interp, consts, f, at, callee, base, env, op, op.operands[i]);
    }
    assert Values(Joined(base, inner, env), forwarded) == Values(env, op.operands);
  }

  lemma InlinedSolved(interp: Interp, consts: seq<Func>, f: Func, at: nat, callee: Func, base: nat, env: Env)
    requires CallsIt(f, at, callee) && Above(f.ops, base) && Solves(interp, CallsTo(interp, consts), f.ops, env)
    requires f.ops[at].kind.callee < |consts| && consts[f.ops[at].kind.callee] == callee
    ensures Solves(interp, CallsTo(interp, consts), Inlined(f, at, callee, base).ops,
                   Joined(base, InnerEnv(interp, callee, Values(env, f.ops[at].operands)), env))
  {
    hide WellFormed, InnerEnv, Inlined, Rets, Clones, CallsTo, ForwardAll;
    var calls := CallsTo(interp, consts);
    var joined := Joined(base, InnerEnv(interp, callee, Values(env, f.ops[at].operands)), env);
    var g := ForwardOp(f.ops[at].id, Rets(base, f.ops[at].operands, callee));
    forall x, r: nat | x in Inlined(f, at, callee, base).ops && r < x.results
      ensures joined(Res(x.id, r)) == ResultOf(interp, calls, x, joined, r)
    {
      InlinedMembers(f, at, callee, base, x);
      if x in Clones(base, f.ops[at].operands, callee) {
        CloneSolved(interp, calls, f, at, callee, base, env, x, r);
      } else {
        var q :| q in f.ops && q.id != f.ops[at].id && x == g(q);
        ForwardedValues(interp, consts, f, at, callee, base, env, q);
        assert env(Res(q.id, r)) == ResultOf(interp, calls, q, env, r);
      }
    }
  }

  // Inlining a call changes no result.
  lemma InliningKeepsMeaning(interp: Interp, p: Program, at: nat, callee: Func, base: nat, args: seq<int>)
    requires CallsIt(p.main, at, callee) && Above(p.main.ops, base) && |args| == p.main.args
    requires p.main.ops[at].kind.callee < |p.consts| && p.consts[p.main.ops[at].kind.callee] == callee
    ensures WellFormed(Inlined(p.main, at, callee, base))
    ensures RunProgram(interp, Program(Inlined(p.main, at, callee, base), p.consts), args) == RunProgram(interp, p, args)
  {
    assert Inlined(p.main, at, callee, base).args == p.main.args;
    hide Above, CallsTo, Eval, InnerEnv, Inlined, Rets, ForwardAll, Ordered, FromShared;
    var f := p.main;
    var calls := CallsTo(interp, p.consts);
    var env := Eval(interp, calls, f.ops, ArgEnv(args));
    EvalSolves(interp, calls, f.args, f.ops, ArgEnv(args));
    InlinedSolved(interp, p.consts, f, at, callee, base, env);
    InlinedWellFormed(f, at, callee, base);
    InlinedEnds(f, at, callee, base);
    var joined := Joined(base, InnerEnv(interp, callee, Values(env, f.ops[at].operands)), env);
    RunBySolution(interp, calls, Inlined(f, at, callee, base), joined, args);
    assert Last(f.ops) in f.ops;
    ForwardedValues(interp, p.consts, f, at, callee, base, env, Last(f.ops));
  }
}
