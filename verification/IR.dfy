/**
 * Straight-line functions of pure ops, as the const-eval passes see them, and what they compute.
 * An op is known by a number that is unique within its function, and its results by that number
 * and a position. Elements are integers, and what a named op computes is a parameter.
 */
module IR {
  type Attributes = map<string, string>

  datatype Value = Arg(index: nat) | Res(op: nat, result: nat)

  // The four kinds the passes tell apart, and the call a hoisted subgraph is replaced by.
  datatype Kind = Terminator | Creation | Shared | Ordinary | LoadCached(callee: nat)

  datatype Op = Op(id: nat, kind: Kind, name: string, attrs: Attributes, operands: seq<Value>, results: nat)

  // `constArgs` are the arguments marked as parameters or constants.
  datatype Func = Func(args: nat, constArgs: set<nat>, ops: seq<Op>)

  // A function and the const-eval functions it calls by position.
  datatype Program = Program(main: Func, consts: seq<Func>)

  function Last<T>(s: seq<T>): T
    requires s != []
  {
    s[|s| - 1]
  }

  function Front<T>(s: seq<T>): seq<T>
    requires s != []
  {
    s[..|s| - 1]
  }

  /* Well-formedness */

  predicate Defines(op: Op, v: Value) {
    v.Res? && v.op == op.id && v.result < op.results
  }

  predicate Defined(args: nat, ops: seq<Op>, v: Value) {
    match v
    case Arg(i) => i < args
    case Res(_, _) => exists op :: op in ops && Defines(op, v)
  }

  predicate HasId(ops: seq<Op>, id: nat) {
    exists op :: op in ops && op.id == id
  }

  // Every use follows its definition, and no two ops share a number.
  predicate Ordered(args: nat, ops: seq<Op>) {
    ops != [] ==>
      && Ordered(args, Front(ops))
      && !HasId(Front(ops), Last(ops).id)
      && forall v :: v in Last(ops).operands ==> Defined(args, Front(ops), v)
  }

  predicate IsShared(ops: seq<Op>, v: Value) {
    v.Res? && exists op :: op in ops && op.kind.Shared? && Defines(op, v)
  }

  predicate FromShared(ops: seq<Op>) {
    forall op, v :: op in ops && (op.kind.Creation? || op.kind.Shared?) && v in op.operands ==> IsShared(ops, v)
  }

  predicate EndsInTerminator(ops: seq<Op>) {
    && ops != []
    && Last(ops).kind.Terminator?
    && Last(ops).results == 0
    && forall op :: op in Front(ops) ==> !op.kind.Terminator?
  }

  predicate WellFormed(f: Func) {
    && Ordered(f.args, f.ops)
    && EndsInTerminator(f.ops)
    && FromShared(f.ops)
  }

  predicate NoCalls(ops: seq<Op>) {
    forall op :: op in ops ==> !op.kind.LoadCached?
  }

  lemma {:induction false} UniqueOp(args: nat, ops: seq<Op>, a: Op, b: Op)
    requires Ordered(args, ops) && a in ops && b in ops && a.id == b.id
    ensures a == b
  {
    assert ops == Front(ops) + [Last(ops)];
    if a in Front(ops) && b in Front(ops) {
      UniqueOp(args, Front(ops), a, b);
    }
  }

  lemma OrderedAppend(args: nat, ops: seq<Op>, op: Op)
    requires Ordered(args, ops) && !HasId(ops, op.id)
    requires forall v :: v in op.operands ==> Defined(args, ops, v)
    ensures Ordered(args, ops + [op])
  {
    assert Front(ops + [op]) == ops;
  }

  // Operands are defined somewhere, and no op uses its own result.
  lemma {:induction false} OperandDefined(args: nat, ops: seq<Op>, op: Op, v: Value)
    requires Ordered(args, ops) && op in ops && v in op.operands
    ensures Defined(args, ops, v) && !(v.Res? && v.op == op.id)
  {
    assert ops == Front(ops) + [Last(ops)];
    if op in Front(ops) {
      OperandDefined(args, Front(ops), op, v);
    }
  }

  /* Meaning */

  type Interp = (string, Attributes, seq<int>, nat) -> int
  type Calls = (nat, seq<int>, nat) -> int
  type Env = Value -> int

  function Values(env: Env, vs: seq<Value>): (r: seq<int>)
    ensures |r| == |vs|
  {
    seq(|vs|, (i: nat) requires i < |vs| => env(vs[i]))
  }

  // What an op computes. A shared op depends on its name and attributes only.
  function ResultOf(interp: Interp, calls: Calls, op: Op, env: Env, r: nat): int {
    match op.kind
    case Shared => interp(op.name, op.attrs, [], r)
    case LoadCached(c) => calls(c, Values(env, op.operands), r)
    case _ => interp(op.name, op.attrs, Values(env, op.operands), r)
  }

  function Step(interp: Interp, calls: Calls, op: Op, env: Env): Env {
    (v: Value) => if v.Res? && v.op == op.id then ResultOf(interp, calls, op, env, v.result) else env(v)
  }

  // Execution of the ops from first to last.
  function Eval(interp: Interp, calls: Calls, ops: seq<Op>, env: Env): Env {
    if ops == [] then env else Step(interp, calls, Last(ops), Eval(interp, calls, Front(ops), env))
  }

  function ArgEnv(args: seq<int>): Env {
    (v: Value) => if v.Arg? && v.index < |args| then args[v.index] else 0
  }

  function Returned(f: Func): seq<Value>
    requires f.ops != []
  {
    Last(f.ops).operands
  }

  function Run(interp: Interp, calls: Calls, f: Func, args: seq<int>): seq<int>
    requires f.ops != []
  {
    Values(Eval(interp, calls, f.ops, ArgEnv(args)), Returned(f))
  }

  function NoCall(c: nat, args: seq<int>, r: nat): int {
    0
  }

  // A cached call yields what its function returns on the same arguments.
  function CallsTo(interp: Interp, consts: seq<Func>): Calls {
    (c: nat, args: seq<int>, r: nat) =>
      if c < |consts| && consts[c].ops != [] && r < |Returned(consts[c])|
      then Run(interp, NoCall, consts[c], args)[r] else 0
  }

  function RunProgram(interp: Interp, p: Program, args: seq<int>): seq<int>
    requires p.main.ops != []
  {
    Run(interp, CallsTo(interp, p.consts), p.main, args)
  }

  /* The equations an execution solves, and their only solution */

  ghost predicate Solves(interp: Interp, calls: Calls, ops: seq<Op>, env: Env) {
    forall op, r: nat :: op in ops && r < op.results ==> env(Res(op.id, r)) == ResultOf(interp, calls, op, env, r)
  }

  ghost predicate SameOn(vs: seq<Value>, env: Env, other: Env) {
    forall v :: v in vs ==> env(v) == other(v)
  }

  lemma ResultCongruence(interp: Interp, calls: Calls, op: Op, env: Env, other: Env, r: nat)
    requires SameOn(op.operands, env, other)
    ensures ResultOf(interp, calls, op, env, r) == ResultOf(interp, calls, op, other, r)
  {
    assert Values(env, op.operands) == Values(other, op.operands);
  }

  lemma {:induction false} EvalSolves(interp: Interp, calls: Calls, args: nat, ops: seq<Op>, env: Env)
    requires Ordered(args, ops)
    ensures Solves(interp, calls, ops, Eval(interp, calls, ops, env))
    ensures forall i: nat :: Eval(interp, calls, ops, env)(Arg(i)) == env(Arg(i))
  {
    hide ResultOf;
    if ops != [] {
      var before, last := Front(ops), Last(ops);
      var mid := Eval(interp, calls, before, env);
      var after := Eval(interp, calls, ops, env);
      EvalSolves(interp, calls, args, before, env);
      assert ops == before + [last];
      forall op, r: nat | op in ops && r < op.results
        ensures after(Res(op.id, r)) == ResultOf(interp, calls, op, after, r)
      {
        forall v | v in op.operands
          ensures mid(v) == after(v)
        {
          OperandDefined(args, ops, op, v);
          if op in before {
            OperandDefined(args, before, op, v);
          }
        }
        ResultCongruence(interp, calls, op, mid, after, r);
        if op in before {
          assert op.id != last.id;
        }
      }
    }
  }

  // Two solutions that agree on the arguments agree on every value.
  lemma {:induction false} OneSolution(interp: Interp, calls: Calls, args: nat, ops: seq<Op>, env: Env, other: Env, v: Value)
    requires Ordered(args, ops)
    requires Solves(interp, calls, ops, env) && Solves(interp, calls, ops, other)
    requires forall i: nat :: i < args ==> env(Arg(i)) == other(Arg(i))
    requires Defined(args, ops, v)
    ensures env(v) == other(v)
  {
    hide ResultOf;
    if v.Res? {
      var before, last := Front(ops), Last(ops);
      assert ops == before + [last];
      var op :| op in ops && Defines(op, v);
      if op in before {
        OneSolution(interp, calls, args, before, env, other, v);
      } else {
        forall u | u in op.operands
          ensures env(u) == other(u)
        {
          OneSolution(interp, calls, args, before, env, other, u);
        }
        ResultCongruence(interp, calls, op, env, other, v.result);
      }
    }
  }

  // Any solution of a function's equations tells what running it returns.
  lemma RunBySolution(interp: Interp, calls: Calls, f: Func, env: Env, args: seq<int>)
    requires WellFormed(f) && |args| == f.args
    requires Solves(interp, calls, f.ops, env)
    requires forall i: nat :: i < f.args ==> env(Arg(i)) == args[i]
    ensures Run(interp, calls, f, args) == Values(env, Returned(f))
  {
    hide Eval;
    var run := Eval(interp, calls, f.ops, ArgEnv(args));
    EvalSolves(interp, calls, f.args, f.ops, ArgEnv(args));
    forall v | v in Returned(f)
      ensures run(v) == env(v)
    {
      OperandDefined(f.args, f.ops, Last(f.ops), v);
      OneSolution(interp, calls, f.args, f.ops, run, env, v);
    }
  }
}
