/**
 * What the subgraphs of the const-eval analysis are, said of the function they were found in: which
 * ops they hold, how they are told apart, and that nothing in them, and no call made of them,
 * depends on an argument that is not constant.
 */
module ConstEvalMeaning {
  import opened IR
  import opened Permutations
  import opened Outlining
  import opened ConstEvalSpec
  import opened HoistSpec

  /* Which ops move */

  ghost predicate InSubgraph(subgraphs: seq<Subgraph>, op: Op) {
    exists s :: s in subgraphs && op in s.ops
  }

  lemma InSubgraphIff(f: Func, subgraphs: seq<Subgraph>, op: Op)
    requires WellFormed(f) && IsPartition(f, subgraphs) && op in f.ops
    ensures InSubgraph(subgraphs, op) <==> Moves(f, Hoisted(f), op)
  {
    hide Ordered, EndsInTerminator, FromShared, Connected, Hoisted, Moves, Filter;
    if s :| s in subgraphs && op in s.ops {
      assert op.id in GroupOf(s.ops);
      PartMoves(f, subgraphs, s, op);
    }
  }

  // An ordinary op moves exactly when each of its operands is a constant argument or a result of a
  // shared op, a creation op or an op that moves.
  lemma OrdinaryMovesIff(f: Func, subgraphs: seq<Subgraph>, op: Op)
    requires WellFormed(f) && IsPartition(f, subgraphs) && op in f.ops && op.kind.Ordinary?
    ensures InSubgraph(subgraphs, op) <==>
      forall v :: v in op.operands ==>
        || (v.Arg? && v.index in f.constArgs)
        || (v.Res? && exists d ::
              d in f.ops && d.id == v.op && v.result < d.results && (d.kind.Shared? || d.kind.Creation? || InSubgraph(subgraphs, d)))
  {
    hide WellFormed, IsPartition, Connected, Hoisted, Moves;
    InSubgraphIff(f, subgraphs, op);
    OrdinaryIsHoisted(f, op);
    forall v | v in op.operands
      ensures IsConst(f, Hoisted(f), v) <==>
        || (v.Arg? && v.index in f.constArgs)
        || (v.Res? && exists d ::
              d in f.ops && d.id == v.op && v.result < d.results && (d.kind.Shared? || d.kind.Creation? || InSubgraph(subgraphs, d)))
    {
      ConstIff(f, subgraphs, v);
    }
  }

  lemma OrdinaryIsHoisted(f: Func, op: Op)
    requires WellFormed(f) && op in f.ops && op.kind.Ordinary?
    ensures Moves(f, Hoisted(f), op) <==> forall v :: v in op.operands ==> IsConst(f, Hoisted(f), v)
  {
    hide Ordered, EndsInTerminator, FromShared, Hoisted, IsConst;
    HoistedIsFixpoint(f, op);
  }

  lemma ConstIff(f: Func, subgraphs: seq<Subgraph>, v: Value)
    requires WellFormed(f) && IsPartition(f, subgraphs)
    ensures IsConst(f, Hoisted(f), v) <==>
      || (v.Arg? && v.index in f.constArgs)
      || (v.Res? && exists d ::
            d in f.ops && d.id == v.op && v.result < d.results && (d.kind.Shared? || d.kind.Creation? || InSubgraph(subgraphs, d)))
  {
    hide WellFormed, IsPartition, Connected, Hoisted;
    if v.Res? {
      forall d | d in f.ops && Defines(d, v) && !d.kind.Creation?
        ensures d.id in Hoisted(f) <==> InSubgraph(subgraphs, d)
      {
        InSubgraphIff(f, subgraphs, d);
      }
    }
  }

  // A creation op moves exactly when an ordinary op that moves reads it, and no other kind of op does.
  lemma OthersMoveIff(f: Func, subgraphs: seq<Subgraph>, op: Op)
    requires WellFormed(f) && IsPartition(f, subgraphs) && op in f.ops && !op.kind.Ordinary?
    ensures InSubgraph(subgraphs, op) <==>
      op.kind.Creation? && exists user, v ::
        InSubgraph(subgraphs, user) && user.kind.Ordinary? && v in user.operands && v.Res? && v.op == op.id && v.result < op.results
  {
    hide WellFormed, IsPartition, Connected, Hoisted;
    InSubgraphIff(f, subgraphs, op);
    NotHoisted(f, op);
    if Moves(f, Hoisted(f), op) {
      var user :| user in f.ops && user.id in Hoisted(f) && Reads(user, op);
      NotHoisted(f, user);
      InSubgraphIff(f, subgraphs, user);
      var v :| v in user.operands && Defines(op, v);
    }
    if op.kind.Creation? {
      if user, v :|
        InSubgraph(subgraphs, user) && user.kind.Ordinary? && v in user.operands && v.Res? && v.op == op.id && v.result < op.results
      {
        var s :| s in subgraphs && user in s.ops;
        OfTheBody(f, subgraphs, s, user);
        InSubgraphIff(f, subgraphs, user);
        assert Reads(user, op);
      }
    }
  }

  lemma NotHoisted(f: Func, op: Op)
    requires WellFormed(f) && op in f.ops
    ensures op.id in Hoisted(f) ==> op.kind.Ordinary?
  {
    hide Ordered, EndsInTerminator, FromShared, Hoisted;
    HoistedIsFixpoint(f, op);
  }

  lemma OfTheBody(f: Func, subgraphs: seq<Subgraph>, s: Subgraph, op: Op)
    requires IsPartition(f, subgraphs) && s in subgraphs && op in s.ops
    ensures op in f.ops
  {
    hide Connected, Hoisted, Moves, Filter;
    FilterMembers(InGroup(GroupOf(s.ops)), f.ops, op);
  }

  /* How the subgraphs are told apart */

  // An op that moves is in the subgraph of whatever reads it and moves.
  lemma ReadStaysTogether(f: Func, subgraphs: seq<Subgraph>, s: Subgraph, t: Subgraph, x: Op, y: Op, v: Value)
    requires WellFormed(f) && IsPartition(f, subgraphs) && s in subgraphs && t in subgraphs && x in s.ops && y in t.ops
    requires v in x.operands && v.Res? && v.op == y.id && v.result < y.results
    ensures y in s.ops
  {
    hide Ordered, EndsInTerminator, Connected, Hoisted, Filter, Moves;
    OfTheBody(f, subgraphs, s, x);
    OfTheBody(f, subgraphs, t, y);
    assert x.id in GroupOf(s.ops) && y.id in GroupOf(t.ops);
    PartMoves(f, subgraphs, s, x);
    PartMoves(f, subgraphs, t, y);
    if x.kind.Creation? {
      assert IsShared(f.ops, v);
      var d :| d in f.ops && d.kind.Shared? && Defines(d, v);
      UniqueOp(f.args, f.ops, d, y);
    } else {
      ReadIsLinked(f, x, y, v);
    }
  }

  // A read between two ops that move is between ops on the same side.
  ghost predicate ReadsDoNotCross(subgraphs: seq<Subgraph>, apart: set<nat>) {
    forall a, b, v ::
      InSubgraph(subgraphs, a) && InSubgraph(subgraphs, b) && v in a.operands && v.Res? && v.op == b.id && v.result < b.results
      ==> (a.id in apart <==> b.id in apart)
  }

  // A set of ops that no read among the ops that move crosses holds all of a subgraph or none of it.
  lemma SubgraphsAreSeparate(f: Func, subgraphs: seq<Subgraph>, s: Subgraph, apart: set<nat>, x: Op, y: Op)
    requires WellFormed(f) && IsPartition(f, subgraphs) && s in subgraphs && x in s.ops && y in s.ops
    requires ReadsDoNotCross(subgraphs, apart)
    ensures x.id in apart <==> y.id in apart
  {
    hide WellFormed, Hoisted, Filter;
    OfTheBody(f, subgraphs, s, x);
    OfTheBody(f, subgraphs, s, y);
    assert Connected(f, x.id, y.id);
    var mark := (id: nat) => if id in apart then 1 else 0;
    forall a, b | Linked(f, Hoisted(f), a, b)
      ensures mark(a) == mark(b)
    {
      LinkIsRead(f, subgraphs, apart, a, b);
    }
    var p: seq<nat> :| Walk(f, p) && p[0] == x.id && Last(p) == y.id;
    WalkKeepsLabel(f, mark, p);
  }

  lemma LinkIsRead(f: Func, subgraphs: seq<Subgraph>, apart: set<nat>, a: nat, b: nat)
    requires WellFormed(f) && IsPartition(f, subgraphs) && Linked(f, Hoisted(f), a, b)
    requires ReadsDoNotCross(subgraphs, apart)
    ensures a in apart <==> b in apart
  {
    hide WellFormed, IsPartition, Hoisted;
    var x, y :| x in f.ops && y in f.ops && x.id == a && y.id == b && b in Hoisted(f) && Reads(y, x) && (x.kind.Creation? || a in Hoisted(f));
    var v :| v in y.operands && Defines(x, v);
    InSubgraphIff(f, subgraphs, x);
    InSubgraphIff(f, subgraphs, y);
    assert v in y.operands && v.Res? && v.op == x.id && v.result < x.results;
  }

  /* Nothing in a subgraph depends on an argument that varies */

  // Two argument lists that differ at most on arguments that vary.
  ghost predicate SameConstants(f: Func, xs: seq<int>, ys: seq<int>) {
    |xs| == |ys| == f.args && forall i :: 0 <= i < f.args && i in f.constArgs ==> xs[i] == ys[i]
  }

  lemma {:induction false} ConstValue(interp: Interp, calls: Calls, f: Func, env: Env, other: Env, k: nat, v: Value)
    requires Ordered(f.args, f.ops) && FromShared(f.ops) && k <= |f.ops|
    requires Solves(interp, calls, f.ops, env) && Solves(interp, calls, f.ops, other)
    requires forall i: nat :: i in f.constArgs ==> env(Arg(i)) == other(Arg(i))
    requires Defined(f.args, f.ops[..k], v) && IsConst(f, Hoisted(f), v)
    ensures env(v) == other(v)
    decreases k
  {
    hide Ordered, Hoisted, ResultOf, FromShared;
    if v.Res? {
      var op :| op in f.ops && Defines(op, v) && (op.kind.Shared? || op.kind.Creation? || op.id in Hoisted(f));
      var q :| q in f.ops[..k] && Defines(q, v);
      UniqueOp(f.args, f.ops, op, q);
      var j :| 0 <= j < k && f.ops[j] == op;
      if op.kind.Shared? {
        SharedValue(interp, calls, op, env, other, v.result);
      } else {
        OrderedPrefix(f.args, f.ops, j + 1);
        forall u | u in op.operands
          ensures env(u) == other(u)
        {
          ReadsEarlier(f, j, u);
          ConstReadsConst(f, op, u);
          ConstValue(interp, calls, f, env, other, j, u);
        }
        ResultCongruence(interp, calls, op, env, other, v.result);
      }
    }
  }

  lemma SharedValue(interp: Interp, calls: Calls, op: Op, env: Env, other: Env, r: nat)
    requires op.kind.Shared?
    ensures ResultOf(interp, calls, op, env, r) == ResultOf(interp, calls, op, other, r)
  {}

  lemma ConstReadsConst(f: Func, op: Op, u: Value)
    requires Ordered(f.args, f.ops) && FromShared(f.ops) && op in f.ops && u in op.operands
    requires op.kind.Creation? || op.id in Hoisted(f)
    ensures IsConst(f, Hoisted(f), u)
  {
    hide Ordered, Hoisted;
    if op.id in Hoisted(f) {
      HoistedIsFixpoint(f, op);
    } else {
      assert IsShared(f.ops, u);
    }
  }

  // Every result of an op of a subgraph is the same for argument lists that agree on the constant ones.
  lemma SubgraphIsConstant(interp: Interp, calls: Calls, f: Func, subgraphs: seq<Subgraph>, s: Subgraph, op: Op, r: nat, xs: seq<int>, ys: seq<int>)
    requires WellFormed(f) && IsPartition(f, subgraphs) && s in subgraphs && op in s.ops && r < op.results
    requires SameConstants(f, xs, ys)
    ensures Eval(interp, calls, f.ops, ArgEnv(xs))(Res(op.id, r)) == Eval(interp, calls, f.ops, ArgEnv(ys))(Res(op.id, r))
  {
    hide Ordered, EndsInTerminator, FromShared, IsPartition, Hoisted, Eval;
    OfTheBody(f, subgraphs, s, op);
    assert InSubgraph(subgraphs, op);
    InSubgraphIff(f, subgraphs, op);
    var env, other := Eval(interp, calls, f.ops, ArgEnv(xs)), Eval(interp, calls, f.ops, ArgEnv(ys));
    EvalSolves(interp, calls, f.args, f.ops, ArgEnv(xs));
    EvalSolves(interp, calls, f.args, f.ops, ArgEnv(ys));
    assert Defines(op, Res(op.id, r));
    assert f.ops[..|f.ops|] == f.ops;
    ConstValue(interp, calls, f, env, other, |f.ops|, Res(op.id, r));
  }

  /* Nor does a call made of one */

  lemma InputsAreConstant(f: Func, subgraphs: seq<Subgraph>, cuts: seq<Cut>, i: nat)
    requires WellFormed(f) && IsPartition(f, subgraphs) && CutsOf(f, subgraphs, cuts) && i < |cuts|
    ensures forall p :: p in cuts[i].inputs ==> p in f.constArgs
  {
    hide Ordered, EndsInTerminator, Connected, Hoisted, Filter, AllFit, SortedBelow;
    var s := subgraphs[i];
    ParamsInRange(f, subgraphs, s);
    SortedMembers(s.inputParameters, f.args);
    forall p | p in cuts[i].inputs
      ensures p in f.constArgs
    {
      var op :| op in s.ops && Arg(p) in op.operands;
      OfTheBody(f, subgraphs, s, op);
      PartMoves(f, subgraphs, s, op);
      ConstReadsConst(f, op, Arg(p));
    }
  }

  ghost predicate CallsReadConstants(ops: seq<Op>, constArgs: set<nat>) {
    forall op, v :: op in ops && op.kind.LoadCached? && v in op.operands ==> v.Arg? && v.index in constArgs
  }

  lemma {:induction false} OutlinedReadsConstants(f: Func, cuts: seq<Cut>, n: nat)
    requires NoCalls(f.ops) && n <= |cuts| && AllFit(f, cuts, n)
    requires forall i, p :: 0 <= i < n && p in cuts[i].inputs ==> p in f.constArgs
    ensures CallsReadConstants(Outlined(f, cuts, n).main.ops, f.constArgs)
  {
    hide Fits, After, Callee, NoCalls;
    if n == 0 {
      NoCallsRead(f);
    } else {
      OutlinedReadsConstants(f, cuts, n - 1);
      assert FitsAt(f, cuts, n - 1);
      FitsIndex(Outlined(f, cuts, n - 1).main, cuts[n - 1]);
      CallsStillReadConstants(Outlined(f, cuts, n - 1).main, cuts[n - 1], f.constArgs);
    }
  }

  lemma NoCallsRead(f: Func)
    requires NoCalls(f.ops)
    ensures CallsReadConstants(f.ops, f.constArgs)
  {}

  lemma CallsStillReadConstants(f: Func, c: Cut, constArgs: set<nat>)
    requires Fits(f, c) && CallsReadConstants(f.ops, constArgs) && forall p :: p in c.inputs ==> p in constArgs
    ensures CallsReadConstants(After(f, c).ops, constArgs)
  {
    hide Fits, After;
    FitsIndex(f, c);
    OutputsAreResults(f, c);
    forall x, v | x in After(f, c).ops && x.kind.LoadCached? && v in x.operands
      ensures v.Arg? && v.index in constArgs
    {
      AfterMembers(f, c, x);
      if x != CallOp(c) {
        var op :| op in f.ops && op.id !in c.group && x == RedirectOp(c.outputs, c.call)(op);
        RedirectArgs(c.outputs, c.call, op);
      }
    }
  }

  // Every cached call of the outlined function returns the same for argument lists that agree on the
  // constant ones, so its result can be kept from one run to the next.
  ghost predicate CallsAreConstant(q: Program) {
    forall interp: Interp, xs: seq<int>, ys: seq<int>, op, r: nat ::
      SameConstants(q.main, xs, ys) && op in q.main.ops && op.kind.LoadCached? && r < op.results ==>
        Eval(interp, CallsTo(interp, q.consts), q.main.ops, ArgEnv(xs))(Res(op.id, r))
        == Eval(interp, CallsTo(interp, q.consts), q.main.ops, ArgEnv(ys))(Res(op.id, r))
  }

  lemma OutlinedCallsAreConstant(f: Func, subgraphs: seq<Subgraph>, cuts: seq<Cut>)
    requires WellFormed(f) && NoCalls(f.ops) && IsPartition(f, subgraphs) && CutsOf(f, subgraphs, cuts)
    ensures CallsAreConstant(Outlined(f, cuts, |cuts|))
  {
    hide WellFormed, NoCalls, IsPartition, Outlined, Intact, CallsReadConstants, FitsAt;
    forall i, p | 0 <= i < |cuts| && p in cuts[i].inputs
      ensures p in f.constArgs
    {
      InputsAreConstant(f, subgraphs, cuts, i);
    }
    OutlinedReadsConstants(f, cuts, |cuts|);
    OutlinedIntact(f, cuts, |cuts|);
    KeptConstants(f, cuts);
    ConstantCalls(Outlined(f, cuts, |cuts|));
  }

  lemma KeptConstants(f: Func, cuts: seq<Cut>)
    requires Intact(f, Outlined(f, cuts, |cuts|), |cuts|)
    ensures WellFormed(Outlined(f, cuts, |cuts|).main) && Outlined(f, cuts, |cuts|).main.constArgs == f.constArgs
  {
    hide WellFormed;
  }

  lemma ConstantCalls(q: Program)
    requires WellFormed(q.main) && CallsReadConstants(q.main.ops, q.main.constArgs)
    ensures CallsAreConstant(q)
  {
    hide EndsInTerminator, FromShared, Eval, CallsTo;
    forall interp: Interp, xs: seq<int>, ys: seq<int>, op, r: nat |
      SameConstants(q.main, xs, ys) && op in q.main.ops && op.kind.LoadCached? && r < op.results
      ensures Eval(interp, CallsTo(interp, q.consts), q.main.ops, ArgEnv(xs))(Res(op.id, r))
        == Eval(interp, CallsTo(interp, q.consts), q.main.ops, ArgEnv(ys))(Res(op.id, r))
    {
      CallIsConstant(interp, CallsTo(interp, q.consts), q.main, op, r, xs, ys);
    }
  }

  lemma CallIsConstant(interp: Interp, calls: Calls, f: Func, op: Op, r: nat, xs: seq<int>, ys: seq<int>)
    requires WellFormed(f) && CallsReadConstants(f.ops, f.constArgs) && SameConstants(f, xs, ys)
    requires op in f.ops && op.kind.LoadCached? && r < op.results
    ensures Eval(interp, calls, f.ops, ArgEnv(xs))(Res(op.id, r)) == Eval(interp, calls, f.ops, ArgEnv(ys))(Res(op.id, r))
  {
    hide Ordered, EndsInTerminator, FromShared, Eval, ResultOf;
    var env, other := Eval(interp, calls, f.ops, ArgEnv(xs)), Eval(interp, calls, f.ops, ArgEnv(ys));
    EvalSolves(interp, calls, f.args, f.ops, ArgEnv(xs));
    EvalSolves(interp, calls, f.args, f.ops, ArgEnv(ys));
    forall v | v in op.operands
      ensures env(v) == other(v)
    {
      OperandDefined(f.args, f.ops, op, v);
    }
    ResultCongruence(interp, calls, op, env, other, r);
  }

  /* The signature of each new function */

  // Another cut changes neither what a closed group produces nor which of it is used outside.
  lemma OtherProduced(f: Func, c: Cut, group: set<nat>, inputs: seq<nat>, v: Value)
    requires Fits(f, c) && Closed(f.ops, group, inputs) && group !! c.group && c.call !in group
    ensures Produced(After(f, c).ops, group, v) <==> Produced(f.ops, group, v)
  {
    hide Fits, Closed, After;
    FitsIndex(f, c);
    if op :| op in f.ops && op.id in group && Defines(op, v) {
      OtherGroupUntouched(f, c, group, inputs, op);
    }
    if x :| x in After(f, c).ops && x.id in group && Defines(x, v) {
      AfterMembers(f, c, x);
      var op :| op in f.ops && op.id !in c.group && x == RedirectOp(c.outputs, c.call)(op);
      assert op.id in group && Defines(op, v);
    }
  }

  lemma OtherUsedOutside(f: Func, c: Cut, group: set<nat>, inputs: seq<nat>, v: Value)
    requires Fits(f, c) && Closed(f.ops, group, inputs) && group !! c.group && c.call !in group && Produced(f.ops, group, v)
    ensures UsedOutside(After(f, c).ops, group, v) <==> UsedOutside(f.ops, group, v)
  {
    hide Fits, Closed, After;
    FitsIndex(f, c);
    NotProducedTwice(f, c, group, inputs, v);
    OutputsAreResults(f, c);
    if op :| op in f.ops && op.id !in group && v in op.operands {
      var x := RedirectOp(c.outputs, c.call)(op);
      RedirectedRead(f, c, op, v);
      RedirectMembers(c.outputs, c.call, op.operands, v);
      assert v == Redirect(c.outputs, c.call, v);
      AfterKeeps(f, c, op);
      assert x in After(f, c).ops && x.id !in group && v in x.operands;
    }
    if x :| x in After(f, c).ops && x.id !in group && v in x.operands {
      AfterMembers(f, c, x);
      if x != CallOp(c) {
        var op :| op in f.ops && op.id !in c.group && x == RedirectOp(c.outputs, c.call)(op);
        RedirectMembers(c.outputs, c.call, op.operands, v);
        var w :| w in op.operands && v == Redirect(c.outputs, c.call, w);
        assert w == v;
      }
    }
  }

  // What a closed group produces another group neither produces nor reads.
  lemma NotProducedTwice(f: Func, c: Cut, group: set<nat>, inputs: seq<nat>, v: Value)
    requires Fits(f, c) && Closed(f.ops, group, inputs) && group !! c.group && Produced(f.ops, group, v)
    ensures v.Res? && v.op in group && !Produced(f.ops, c.group, v)
    ensures forall op :: op in f.ops && v in op.operands ==> op.id !in c.group
  {
    hide Ordered, EndsInTerminator, FromShared, IsBoundary, Loads;
    var d :| d in f.ops && d.id in group && Defines(d, v);
    if e :| e in f.ops && (e.id in c.group || e.kind.Shared?) && Defines(e, v) {
      UniqueOp(f.args, f.ops, d, e);
    }
    assert !InScope(f.ops, c.group, c.inputs, v);
  }

  lemma {:induction false} BoundaryWaits(f: Func, cuts: seq<Cut>, n: nat, s: Subgraph, inputs: seq<nat>, v: Value)
    requires n <= |cuts| && AllFit(f, cuts, n)
    requires IsGroupOf(f.ops, s) && Closed(f.ops, GroupOf(s.ops), inputs)
    requires forall i :: 0 <= i < n ==> GroupOf(s.ops) !! cuts[i].group
    ensures (Produced(Outlined(f, cuts, n).main.ops, GroupOf(s.ops), v) && UsedOutside(Outlined(f, cuts, n).main.ops, GroupOf(s.ops), v))
      <==> Produced(f.ops, GroupOf(s.ops), v) && UsedOutside(f.ops, GroupOf(s.ops), v)
  {
    hide Fits, After, Callee, Closed, IsGroupOf, Produced, UsedOutside;
    if n > 0 {
      var p := Outlined(f, cuts, n - 1);
      var c := cuts[n - 1];
      BoundaryWaits(f, cuts, n - 1, s, inputs, v);
      GroupWaits(f, cuts, n - 1, s, inputs);
      assert FitsAt(f, cuts, n - 1);
      FitsIndex(p.main, c);
      CallIsNew(p.main, c, s);
      OtherProduced(p.main, c, GroupOf(s.ops), inputs, v);
      if Produced(p.main.ops, GroupOf(s.ops), v) {
        OtherUsedOutside(p.main, c, GroupOf(s.ops), inputs, v);
      }
    }
  }

  lemma ClosedSubgraph(f: Func, subgraphs: seq<Subgraph>, s: Subgraph) returns (inputs: seq<nat>)
    requires WellFormed(f) && IsPartition(f, subgraphs) && s in subgraphs
    ensures IsGroupOf(f.ops, s) && Closed(f.ops, GroupOf(s.ops), inputs)
  {
    hide Ordered, EndsInTerminator, FromShared, Connected, Hoisted, Moves, Filter, Closed;
    inputs := SortedBelow(s.inputParameters, f.args);
    SortedMembers(s.inputParameters, f.args);
    ParamsInRange(f, subgraphs, s);
    SubgraphIsClosed(f, subgraphs, s, inputs);
  }

  // Whatever subgraphs went before, the new function of this one returns the results of its ops that
  // an op of the body outside it uses.
  lemma OutputsAre(f: Func, subgraphs: seq<Subgraph>, cuts: seq<Cut>, i: nat, v: Value)
    requires WellFormed(f) && IsPartition(f, subgraphs) && CutsOf(f, subgraphs, cuts) && i < |cuts|
    ensures v in cuts[i].outputs <==>
      Produced(f.ops, GroupOf(subgraphs[i].ops), v) && UsedOutside(f.ops, GroupOf(subgraphs[i].ops), v)
  {
    hide WellFormed, Connected, Hoisted, Moves, Filter, Closed, IsGroupOf, InOrder, Outlined, Fits;
    var s := subgraphs[i];
    var inputs := ClosedSubgraph(f, subgraphs, s);
    assert forall k :: 0 <= k < i ==> GroupOf(subgraphs[k].ops) !! GroupOf(s.ops);
    BoundaryWaits(f, cuts, i, s, inputs, v);
    assert FitsAt(f, cuts, i);
    BoundaryOf(Outlined(f, cuts, i).main, cuts[i], v);
  }

  lemma BoundaryOf(f: Func, c: Cut, v: Value)
    requires Fits(f, c)
    ensures v in c.outputs <==> Produced(f.ops, c.group, v) && UsedOutside(f.ops, c.group, v)
  {
    hide WellFormed, Closed, Loads;
  }

  lemma {:induction false} NewFunctionIs(f: Func, cuts: seq<Cut>, n: nat, i: nat)
    requires i < n <= |cuts| && AllFit(f, cuts, n) && WellFormed(f) && NoCalls(f.ops)
    ensures |Outlined(f, cuts, n).consts| == n && Outlined(f, cuts, n).consts[i].ops != []
    ensures Outlined(f, cuts, n).consts[i].args == |cuts[i].inputs|
    ensures Returned(Outlined(f, cuts, n).consts[i]) == cuts[i].outputs
  {
    hide Fits, WellFormed, After;
    OutlinedIntact(f, cuts, n);
    OutlinedIntact(f, cuts, n - 1);
    assert FitsAt(f, cuts, n - 1);
    FitsIndex(Outlined(f, cuts, n - 1).main, cuts[n - 1]);
    if i < n - 1 {
      NewFunctionIs(f, cuts, n - 1, i);
    }
  }

  // The signature of each new function: its arguments are the constant ones its ops read, ascending,
  // and it returns the results of its ops that other ops of the body use, in the order of the body.
  lemma SignatureIsDetermined(f: Func, subgraphs: seq<Subgraph>, cuts: seq<Cut>, i: nat)
    requires WellFormed(f) && NoCalls(f.ops) && IsPartition(f, subgraphs) && CutsOf(f, subgraphs, cuts) && i < |cuts|
    ensures var s, c := subgraphs[i], cuts[i];
      && (forall p: nat :: p in c.inputs <==> exists op :: op in s.ops && Arg(p) in op.operands)
      && (forall p: nat :: p in c.inputs ==> p in f.constArgs)
      && (forall a, b :: 0 <= a < b < |c.inputs| ==> c.inputs[a] < c.inputs[b])
      && (forall v: Value :: v in c.outputs <==>
            && (exists op :: op in s.ops && v.Res? && v.op == op.id && v.result < op.results)
            && (exists user :: user in f.ops && user !in s.ops && v in user.operands))
      && (forall a, b :: 0 <= a < b < |c.outputs| ==>
            || (c.outputs[a].op == c.outputs[b].op && c.outputs[a].result < c.outputs[b].result)
            || exists x, y :: 0 <= x < y < |s.ops| && s.ops[x].id == c.outputs[a].op && s.ops[y].id == c.outputs[b].op)
    ensures var q := Outlined(f, cuts, |cuts|);
      i < |q.consts| && q.consts[i].ops != [] && q.consts[i].args == |cuts[i].inputs| && Returned(q.consts[i]) == cuts[i].outputs
  {
    hide WellFormed, NoCalls, Connected, Hoisted, Moves, Filter, FitsAt, Outlined, SortedBelow;
    var s, c := subgraphs[i], cuts[i];
    NewFunctionIs(f, cuts, |cuts|, i);
    InputsAreConstant(f, subgraphs, cuts, i);
    ParamsInRange(f, subgraphs, s);
    SortedMembers(s.inputParameters, f.args);
    forall v: Value
      ensures v in c.outputs <==>
        && (exists op :: op in s.ops && v.Res? && v.op == op.id && v.result < op.results)
        && (exists user :: user in f.ops && user !in s.ops && v in user.operands)
    {
      OutputsAre(f, subgraphs, cuts, i, v);
      BoundaryInFields(f, s, v);
    }
  }

  lemma BoundaryInFields(f: Func, s: Subgraph, v: Value)
    requires IsGroupOf(f.ops, s)
    ensures Produced(f.ops, GroupOf(s.ops), v) <==> exists op :: op in s.ops && v.Res? && v.op == op.id && v.result < op.results
    ensures UsedOutside(f.ops, GroupOf(s.ops), v) <==> exists user :: user in f.ops && user !in s.ops && v in user.operands
  {
    hide IsGroupOf;
    forall op
      ensures op in s.ops <==> op in f.ops && op.id in GroupOf(s.ops)
    {
      GroupMember(f.ops, s, op);
    }
    if op :| op in s.ops && v.Res? && v.op == op.id && v.result < op.results {
      assert Defines(op, v);
    }
  }

  /* The new functions and the calls of them */

  lemma {:induction false} NewFunctionBody(f: Func, cuts: seq<Cut>, n: nat, i: nat)
    requires i < n <= |cuts| && AllFit(f, cuts, n) && WellFormed(f) && NoCalls(f.ops)
    ensures |Outlined(f, cuts, n).consts| == n
    ensures Outlined(f, cuts, n).consts[i].ops
      == Mapped(CloneOf(cuts[i].inputs), ToClone(Outlined(f, cuts, i).main.ops, cuts[i].group)) + [ReturnOp(cuts[i])]
  {
    hide Fits, WellFormed, After, ToClone, Mapped;
    OutlinedIntact(f, cuts, n);
    OutlinedIntact(f, cuts, n - 1);
    assert FitsAt(f, cuts, n - 1);
    FitsIndex(Outlined(f, cuts, n - 1).main, cuts[n - 1]);
    if i < n - 1 {
      NewFunctionBody(f, cuts, n - 1, i);
    }
  }

  // Calls stay where they were put: the i-th op calls the i-th function.
  lemma {:induction false} CallStays(f: Func, cuts: seq<Cut>, n: nat, i: nat)
    requires i < n <= |cuts| && AllFit(f, cuts, n) && WellFormed(f) && NoCalls(f.ops)
    ensures i < |Outlined(f, cuts, n).main.ops| && Outlined(f, cuts, n).main.ops[i] == CallOp(cuts[i])
  {
    hide Fits, WellFormed, Callee, CallOp, Done, After;
    var p, c := Outlined(f, cuts, n - 1), cuts[n - 1];
    OutlinedIntact(f, cuts, n - 1);
    assert FitsAt(f, cuts, n - 1);
    FitsIndex(p.main, c);
    AfterIsDone(p.main, c);
    DoneStart(p.main, c, |p.main.ops|);
    var start := p.main.ops[..n - 1] + [CallOp(c)];
    assert After(p.main, c).ops[i] == start[i];
    if i < n - 1 {
      CallStays(f, cuts, n - 1, i);
    }
  }

  // What is cloned is what the body held at first: no earlier cut touched it.
  lemma ClonedAre(f: Func, subgraphs: seq<Subgraph>, cuts: seq<Cut>, i: nat)
    requires WellFormed(f) && IsPartition(f, subgraphs) && CutsOf(f, subgraphs, cuts) && i < |cuts|
    ensures ToClone(Outlined(f, cuts, i).main.ops, cuts[i].group) == Filter(SharedOnly(), f.ops) + subgraphs[i].ops
  {
    hide WellFormed, Connected, Hoisted, Moves, Filter, Closed, InOrder, Outlined, FitsAt;
    var s := subgraphs[i];
    var inputs := ClosedSubgraph(f, subgraphs, s);
    assert forall k :: 0 <= k < i ==> GroupOf(subgraphs[k].ops) !! GroupOf(s.ops);
    GroupWaits(f, cuts, i, s, inputs);
    SharedWait(f, cuts, i);
  }

  // The copy of an op in the function with these inputs: arguments are numbered by the inputs.
  ghost predicate IsCopy(copy: Op, op: Op, inputs: seq<nat>) {
    && copy.id == op.id && copy.kind == op.kind && copy.name == op.name && copy.attrs == op.attrs && copy.results == op.results
    && |copy.operands| == |op.operands|
    && forall m :: 0 <= m < |op.operands| ==>
         && (op.operands[m].Res? ==> copy.operands[m] == op.operands[m])
         && (op.operands[m].Arg? && op.operands[m].index in inputs ==>
               copy.operands[m].Arg? && copy.operands[m].index < |inputs| && inputs[copy.operands[m].index] == op.operands[m].index)
  }

  lemma CloneIsCopy(op: Op, inputs: seq<nat>)
    ensures IsCopy(CloneOf(inputs)(op), op, inputs)
  {}

  // The i-th new function holds a copy of every shared op and then one of every op of its subgraph, in
  // the order of the body, and returns the outputs; the i-th op of the caller calls it on the inputs.
  lemma NewFunctionAndCall(f: Func, subgraphs: seq<Subgraph>, cuts: seq<Cut>, i: nat)
    requires WellFormed(f) && NoCalls(f.ops) && IsPartition(f, subgraphs) && CutsOf(f, subgraphs, cuts) && i < |cuts|
    ensures var q, list := Outlined(f, cuts, |cuts|), Filter(SharedOnly(), f.ops) + subgraphs[i].ops;
      && i < |q.consts| && |q.consts[i].ops| == |list| + 1
      && (forall k :: 0 <= k < |list| ==> IsCopy(q.consts[i].ops[k], list[k], cuts[i].inputs))
      && Last(q.consts[i].ops).kind.Terminator? && Last(q.consts[i].ops).operands == cuts[i].outputs
    ensures var q := Outlined(f, cuts, |cuts|);
      && i < |q.main.ops| && q.main.ops[i].kind == LoadCached(i) && q.main.ops[i].results == |cuts[i].outputs|
      && |q.main.ops[i].operands| == |cuts[i].inputs|
      && forall m :: 0 <= m < |cuts[i].inputs| ==> q.main.ops[i].operands[m] == Arg(cuts[i].inputs[m])
  {
    hide WellFormed, NoCalls, IsPartition, Filter, Outlined, Fits, SortedBelow, InOrder, IsCopy, CloneOf, ToClone;
    NewFunctionBody(f, cuts, |cuts|, i);
    CallStays(f, cuts, |cuts|, i);
    ClonedAre(f, subgraphs, cuts, i);
    assert FitsAt(f, cuts, i);
    var list := Filter(SharedOnly(), f.ops) + subgraphs[i].ops;
    forall k | 0 <= k < |list|
      ensures IsCopy(CloneOf(cuts[i].inputs)(list[k]), list[k], cuts[i].inputs)
    {
      CloneIsCopy(list[k], cuts[i].inputs);
    }
  }
}
