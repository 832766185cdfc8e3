/**
 * Moving a closed group of ops out of a function: the shape of the two functions that result, why
 * both are well formed, and why the caller still returns what it did.
 */
module Outlining {
  import opened IR
  import opened Permutations

  function Filter(keep: Op -> bool, ops: seq<Op>): seq<Op> {
    if ops == [] then [] else Filter(keep, Front(ops)) + (if keep(Last(ops)) then [Last(ops)] else [])
  }

  function Mapped(g: Op -> Op, ops: seq<Op>): (r: seq<Op>)
    ensures |r| == |ops|
  {
    seq(|ops|, (i: nat) requires i < |ops| => g(ops[i]))
  }

  function InGroup(group: set<nat>): Op -> bool { (op: Op) => op.id in group }
  function Outside(group: set<nat>): Op -> bool { (op: Op) => op.id !in group }
  function SharedOnly(): Op -> bool { (op: Op) => op.kind.Shared? }

  lemma {:induction false} FilterMembers(keep: Op -> bool, ops: seq<Op>, op: Op)
    ensures op in Filter(keep, ops) <==> op in ops && keep(op)
  {
    if ops != [] {
      assert ops == Front(ops) + [Last(ops)];
      FilterMembers(keep, Front(ops), op);
    }
  }

  lemma MappedNone(g: Op -> Op)
    ensures Mapped(g, []) == []
  {}

  lemma MappedSnoc(g: Op -> Op, ops: seq<Op>, op: Op)
    ensures Mapped(g, ops + [op]) == Mapped(g, ops) + [g(op)]
  {}

  lemma FilterSnoc(keep: Op -> bool, ops: seq<Op>, op: Op)
    ensures Filter(keep, ops + [op]) == Filter(keep, ops) + (if keep(op) then [op] else [])
  {
    assert Front(ops + [op]) == ops;
  }

  // A group of ops to move, the arguments it reads, the results others read, the number of the op
  // that replaces it and where that op goes.
  datatype Cut = Cut(group: set<nat>, inputs: seq<nat>, outputs: seq<Value>, call: nat, index: nat)

  ghost predicate Produced(ops: seq<Op>, group: set<nat>, v: Value) {
    exists op :: op in ops && op.id in group && Defines(op, v)
  }

  ghost predicate UsedOutside(ops: seq<Op>, group: set<nat>, v: Value) {
    exists op :: op in ops && op.id !in group && v in op.operands
  }

  // Exactly the results of the group that an op outside it reads, each once.
  ghost predicate IsBoundary(ops: seq<Op>, group: set<nat>, outputs: seq<Value>) {
    && Distinct(outputs)
    && forall v :: v in outputs <==> Produced(ops, group, v) && UsedOutside(ops, group, v)
  }

  // The first value is a result of an earlier op than the second, or an earlier result of the same op.
  ghost predicate DefinedBefore(ops: seq<Op>, u: Value, v: Value) {
    && u.Res? && v.Res?
    && ((u.op == v.op && u.result < v.result) || exists i, j :: 0 <= i < j < |ops| && ops[i].id == u.op && ops[j].id == v.op)
  }

  ghost predicate InOrder(ops: seq<Op>, outputs: seq<Value>) {
    forall i, j :: 0 <= i < j < |outputs| ==> DefinedBefore(ops, outputs[i], outputs[j])
  }

  ghost predicate InScope(ops: seq<Op>, group: set<nat>, inputs: seq<nat>, v: Value) {
    (v.Arg? && v.index in inputs) || IsShared(ops, v) || Produced(ops, group, v)
  }

  // The group reads nothing but the given arguments, shared ops and itself.
  ghost predicate Closed(ops: seq<Op>, group: set<nat>, inputs: seq<nat>) {
    forall op :: op in ops && op.id in group ==>
      && (op.kind.Creation? || op.kind.Ordinary?)
      && forall v :: v in op.operands ==> InScope(ops, group, inputs, v)
  }

  predicate ReadsArgsOnly(op: Op) {
    forall v :: v in op.operands ==> v.Arg?
  }

  // The calls put in front of the body by earlier groups.
  predicate Loads(ops: seq<Op>, n: nat) {
    n <= |ops| && forall i :: 0 <= i < n ==> ops[i].kind.LoadCached? && ReadsArgsOnly(ops[i])
  }

  ghost predicate Fits(f: Func, c: Cut) {
    && WellFormed(f)
    && Closed(f.ops, c.group, c.inputs)
    && IsBoundary(f.ops, c.group, c.outputs)
    && Distinct(c.inputs) && InRange(c.inputs, f.args)
    && !HasId(f.ops, c.call)
    && c.call !in c.group
    && c.index <= |f.ops| && Loads(f.ops, c.index)
  }

  /* The call and the rewritten caller */

  function CallOp(c: Cut): Op {
    Op(c.call, LoadCached(c.index), "tt.load_cached", map[],
       seq(|c.inputs|, (i: nat) requires i < |c.inputs| => Arg(c.inputs[i])), |c.outputs|)
  }

  function Redirect(outputs: seq<Value>, call: nat, v: Value): Value {
    if v in outputs then Res(call, IndexOf(outputs, v)) else v
  }

  function RedirectOperands(outputs: seq<Value>, call: nat, vs: seq<Value>): seq<Value> {
    seq(|vs|, (i: nat) requires i < |vs| => Redirect(outputs, call, vs[i]))
  }

  function RedirectOp(outputs: seq<Value>, call: nat): Op -> Op {
    (op: Op) => op.(operands := RedirectOperands(outputs, call, op.operands))
  }

  function Inserted(ops: seq<Op>, at: nat, op: Op): seq<Op>
    requires at <= |ops|
  {
    ops[..at] + [op] + ops[at..]
  }

  function After(f: Func, c: Cut): Func
    requires c.index <= |f.ops|
  {
    f.(ops := Filter(Outside(c.group), Mapped(RedirectOp(c.outputs, c.call), Inserted(f.ops, c.index, CallOp(c)))))
  }

  lemma RedirectMembers(outputs: seq<Value>, call: nat, vs: seq<Value>, u: Value)
    ensures u in RedirectOperands(outputs, call, vs) <==> exists v :: v in vs && u == Redirect(outputs, call, v)
  {
    var r := RedirectOperands(outputs, call, vs);
    if u in r {
      var i :| 0 <= i < |r| && r[i] == u;
      assert vs[i] in vs;
    }
    if v :| v in vs && u == Redirect(outputs, call, v) {
      var i :| 0 <= i < |vs| && vs[i] == v;
      assert r[i] == u;
    }
  }

  lemma RedirectArgs(outputs: seq<Value>, call: nat, op: Op)
    requires ReadsArgsOnly(op) && forall v :: v in outputs ==> v.Res?
    ensures RedirectOp(outputs, call)(op) == op
  {
    var r := RedirectOperands(outputs, call, op.operands);
    forall i | 0 <= i < |r|
      ensures r[i] == op.operands[i]
    {
      assert op.operands[i] in op.operands;
    }
    assert r == op.operands;
  }

  lemma MappedMembers(g: Op -> Op, ops: seq<Op>, x: Op)
    ensures x in Mapped(g, ops) <==> exists op :: op in ops && x == g(op)
  {
    var r := Mapped(g, ops);
    if x in r {
      var i :| 0 <= i < |r| && r[i] == x;
      assert ops[i] in ops;
    }
    if op :| op in ops && x == g(op) {
      var i :| 0 <= i < |ops| && ops[i] == op;
      assert r[i] == x;
    }
  }

  // The ops of the caller afterwards: the call, and the others with their uses redirected.
  lemma AfterMembers(f: Func, c: Cut, x: Op)
    requires Fits(f, c)
    ensures x in After(f, c).ops <==>
      x == CallOp(c) || exists op :: op in f.ops && op.id !in c.group && x == RedirectOp(c.outputs, c.call)(op)
  {
    var g := RedirectOp(c.outputs, c.call);
    var l := Inserted(f.ops, c.index, CallOp(c));
    FilterMembers(Outside(c.group), Mapped(g, l), x);
    MappedMembers(g, l, x);
    OutputsAreResults(f, c);
    RedirectArgs(c.outputs, c.call, CallOp(c));
    forall op
      ensures op in l <==> op == CallOp(c) || op in f.ops
    {
      assert f.ops == f.ops[..c.index] + f.ops[c.index..];
    }
  }

  lemma OutputsAreResults(f: Func, c: Cut)
    requires Fits(f, c)
    ensures forall v :: v in c.outputs ==> v.Res? && v.op in c.group && v.op != c.call
  {}

  // A read outside the group is redirected to the call when the group produces it, else it stays.
  lemma RedirectedRead(f: Func, c: Cut, op: Op, v: Value)
    requires Fits(f, c)
    requires op in f.ops && op.id !in c.group && v in op.operands
    ensures v in c.outputs <==> Produced(f.ops, c.group, v)
  {}

  lemma ReadDefined(f: Func, c: Cut, before: seq<Op>, done: seq<Op>, op: Op, u: Value)
    requires Fits(f, c)
    requires op in f.ops && op.id !in c.group && u in RedirectOp(c.outputs, c.call)(op).operands
    requires forall v :: v in op.operands ==> Defined(f.args, before, v)
    requires forall q :: q in before ==> q in f.ops
    requires forall q :: q in before && q.id !in c.group ==> RedirectOp(c.outputs, c.call)(q) in done
    requires CallOp(c) in done
    ensures Defined(f.args, done, u)
  {
    hide Closed, Loads, FromShared, EndsInTerminator, Ordered, IsBoundary;
    RedirectMembers(c.outputs, c.call, op.operands, u);
    var v :| v in op.operands && u == Redirect(c.outputs, c.call, v);
    RedirectedRead(f, c, op, v);
    if v in c.outputs {
      assert Defines(CallOp(c), u);
    } else if v.Res? {
      var q :| q in before && Defines(q, v);
      assert Defines(RedirectOp(c.outputs, c.call)(q), u);
    }
  }

  lemma {:induction false} OrderedPrefix(args: nat, ops: seq<Op>, k: nat)
    requires Ordered(args, ops) && k <= |ops|
    ensures Ordered(args, ops[..k])
  {
    if k < |ops| {
      OrderedPrefix(args, Front(ops), k);
      assert Front(ops)[..k] == ops[..k];
    } else {
      assert ops[..k] == ops;
    }
  }

  lemma OrderedReads(args: nat, ops: seq<Op>, k: nat, v: Value)
    requires Ordered(args, ops) && k < |ops| && v in ops[k].operands
    ensures Defined(args, ops[..k], v)
  {
    OrderedPrefix(args, ops, k + 1);
    assert Front(ops[..k + 1]) == ops[..k] && Last(ops[..k + 1]) == ops[k];
  }

  lemma {:induction false} FilterAll(keep: Op -> bool, ops: seq<Op>)
    requires forall op :: op in ops ==> keep(op)
    ensures Filter(keep, ops) == ops
  {
    if ops != [] {
      FilterAll(keep, Front(ops));
    }
  }

  // What the first k ops of the body become.
  function Done(f: Func, c: Cut, k: nat): seq<Op>
    requires c.index <= k <= |f.ops|
  {
    Filter(Outside(c.group), Mapped(RedirectOp(c.outputs, c.call), Inserted(f.ops[..k], c.index, CallOp(c))))
  }

  lemma DoneFirst(f: Func, c: Cut)
    requires Fits(f, c)
    ensures Done(f, c, c.index) == f.ops[..c.index] + [CallOp(c)]
  {
    var g := RedirectOp(c.outputs, c.call);
    var loads := f.ops[..c.index];
    OutputsAreResults(f, c);
    RedirectArgs(c.outputs, c.call, CallOp(c));
    assert loads[..c.index] == loads && loads[c.index..] == [];
    assert Inserted(loads, c.index, CallOp(c)) == loads + [CallOp(c)];
    forall i | 0 <= i < |loads|
      ensures g(loads[i]) == loads[i] && loads[i].id !in c.group
    {
      assert loads[i] == f.ops[i] && f.ops[i] in f.ops;
      RedirectArgs(c.outputs, c.call, loads[i]);
    }
    assert Mapped(g, loads + [CallOp(c)]) == loads + [CallOp(c)];
    FilterAll(Outside(c.group), loads + [CallOp(c)]);
  }

  lemma DoneNext(f: Func, c: Cut, k: nat)
    requires c.index <= k < |f.ops|
    ensures Done(f, c, k + 1) == Done(f, c, k) + (if f.ops[k].id in c.group then [] else [RedirectOp(c.outputs, c.call)(f.ops[k])])
  {
    var g := RedirectOp(c.outputs, c.call);
    var before := Inserted(f.ops[..k], c.index, CallOp(c));
    assert f.ops[..k + 1][..c.index] == f.ops[..k][..c.index];
    assert f.ops[..k + 1][c.index..] == f.ops[..k][c.index..] + [f.ops[k]];
    assert Inserted(f.ops[..k + 1], c.index, CallOp(c)) == before + [f.ops[k]];
    assert Mapped(g, before + [f.ops[k]]) == Mapped(g, before) + [g(f.ops[k])];
    FilterSnoc(Outside(c.group), Mapped(g, before), g(f.ops[k]));
  }

  lemma DoneMembers(f: Func, c: Cut, k: nat, x: Op)
    requires c.index <= k <= |f.ops| && Fits(f, c)
    ensures x in Done(f, c, k) <==>
      x == CallOp(c) || exists op :: op in f.ops[..k] && op.id !in c.group && x == RedirectOp(c.outputs, c.call)(op)
  {
    var g := RedirectOp(c.outputs, c.call);
    var ops := f.ops[..k];
    var l := Inserted(ops, c.index, CallOp(c));
    FilterMembers(Outside(c.group), Mapped(g, l), x);
    MappedMembers(g, l, x);
    OutputsAreResults(f, c);
    RedirectArgs(c.outputs, c.call, CallOp(c));
    forall op
      ensures op in l <==> op == CallOp(c) || op in ops
    {
      assert ops == ops[..c.index] + ops[c.index..];
    }
  }

  // An op that stays can be appended.
  lemma OrderedKept(f: Func, c: Cut, k: nat)
    requires c.index <= k < |f.ops| && Fits(f, c) && f.ops[k].id !in c.group
    requires Ordered(f.args, Done(f, c, k)) && Ordered(f.args, f.ops[..k + 1])
    ensures Ordered(f.args, Done(f, c, k) + [RedirectOp(c.outputs, c.call)(f.ops[k])])
  {
    hide Closed, FromShared, EndsInTerminator, IsBoundary, Done, Loads;
    var op, before, done := f.ops[k], f.ops[..k], Done(f, c, k);
    assert Front(f.ops[..k + 1]) == before && Last(f.ops[..k + 1]) == op;
    forall x
      ensures x in done <==>
        x == CallOp(c) || exists q :: q in before && q.id !in c.group && x == RedirectOp(c.outputs, c.call)(q)
    {
      DoneMembers(f, c, k, x);
    }
    forall u | u in RedirectOp(c.outputs, c.call)(op).operands
      ensures Defined(f.args, done, u)
    {
      ReadDefined(f, c, before, done, op, u);
    }
    assert op in f.ops;
    OrderedAppend(f.args, done, RedirectOp(c.outputs, c.call)(op));
  }

  lemma {:induction false} OrderedDone(f: Func, c: Cut, k: nat)
    requires c.index <= k <= |f.ops| && Fits(f, c)
    ensures Ordered(f.args, Done(f, c, k))
  {
    hide Closed, FromShared, EndsInTerminator, IsBoundary, Done;
    OrderedPrefix(f.args, f.ops, k);
    if k == c.index {
      DoneFirst(f, c);
      OrderedAppend(f.args, f.ops[..k], CallOp(c));
    } else {
      OrderedDone(f, c, k - 1);
      DoneNext(f, c, k - 1);
      if f.ops[k - 1].id !in c.group {
        OrderedKept(f, c, k - 1);
      } else {
        assert Done(f, c, k) == Done(f, c, k - 1);
      }
    }
  }

  lemma {:induction false} DoneStart(f: Func, c: Cut, k: nat)
    requires c.index <= k <= |f.ops| && Fits(f, c)
    ensures f.ops[..c.index] + [CallOp(c)] <= Done(f, c, k)
  {
    hide Fits, Done;
    if k == c.index {
      DoneFirst(f, c);
    } else {
      DoneStart(f, c, k - 1);
      DoneNext(f, c, k - 1);
    }
  }

  lemma AfterIsDone(f: Func, c: Cut)
    requires Fits(f, c)
    ensures After(f, c) == f.(ops := Done(f, c, |f.ops|))
  {
    assert f.ops[..|f.ops|] == f.ops;
  }

  lemma AfterEnds(f: Func, c: Cut)
    requires Fits(f, c)
    ensures EndsInTerminator(After(f, c).ops)
    ensures Returned(After(f, c)) == RedirectOperands(c.outputs, c.call, Returned(f))
  {
    hide Done, Ordered, FromShared, IsBoundary;
    var n := |f.ops| - 1;
    assert f.ops[n] in f.ops;
    AfterIsDone(f, c);
    DoneNext(f, c, n);
    forall op | op in Done(f, c, n)
      ensures !op.kind.Terminator?
    {
      DoneMembers(f, c, n, op);
    }
    var after := Done(f, c, n + 1);
    assert Front(after) == Done(f, c, n) && Last(after) == RedirectOp(c.outputs, c.call)(f.ops[n]);
  }

  lemma AfterKeeps(f: Func, c: Cut, op: Op)
    requires Fits(f, c) && op in f.ops && op.id !in c.group
    ensures RedirectOp(c.outputs, c.call)(op) in After(f, c).ops
  {
    hide Fits, After;
    AfterMembers(f, c, RedirectOp(c.outputs, c.call)(op));
  }

  // An op that reads nothing the group produces is untouched.
  lemma Untouched(f: Func, c: Cut, op: Op)
    requires Fits(f, c)
    requires op in f.ops && op.id !in c.group
    requires forall v :: v in op.operands ==> !Produced(f.ops, c.group, v)
    ensures RedirectOp(c.outputs, c.call)(op) == op && op in After(f, c).ops
  {
    hide After, Closed, Loads, WellFormed;
    AfterKeeps(f, c, op);
    var r := RedirectOperands(c.outputs, c.call, op.operands);
    forall i | 0 <= i < |r|
      ensures r[i] == op.operands[i]
    {
      assert op.operands[i] in op.operands;
    }
    assert r == op.operands;
  }

  lemma SharedNotProduced(f: Func, c: Cut, v: Value)
    requires Fits(f, c) && IsShared(f.ops, v)
    ensures !Produced(f.ops, c.group, v)
  {
    var s :| s in f.ops && s.kind.Shared? && Defines(s, v);
    if p :| p in f.ops && p.id in c.group && Defines(p, v) {
      UniqueOp(f.args, f.ops, s, p);
    }
  }

  lemma SharedStays(f: Func, c: Cut, op: Op)
    requires Fits(f, c) && op in f.ops && (op.kind.Shared? || op.kind.Creation?) && op.id !in c.group
    ensures RedirectOp(c.outputs, c.call)(op) == op && op in After(f, c).ops
  {
    hide After, Closed, Loads, IsBoundary, IsShared, Ordered, EndsInTerminator;
    forall v | v in op.operands
      ensures !Produced(f.ops, c.group, v)
    {
      SharedNotProduced(f, c, v);
    }
    Untouched(f, c, op);
  }

  lemma StillShared(f: Func, c: Cut, v: Value)
    requires Fits(f, c) && IsShared(f.ops, v)
    ensures IsShared(After(f, c).ops, v)
  {
    hide After, Loads, IsBoundary, WellFormed;
    var s :| s in f.ops && s.kind.Shared? && Defines(s, v);
    SharedStays(f, c, s);
  }

  lemma AfterFromShared(f: Func, c: Cut)
    requires Fits(f, c)
    ensures FromShared(After(f, c).ops)
  {
    hide After, Closed, IsBoundary, IsShared, Ordered, EndsInTerminator;
    forall x, v | x in After(f, c).ops && (x.kind.Creation? || x.kind.Shared?) && v in x.operands
      ensures IsShared(After(f, c).ops, v)
    {
      AfterMembers(f, c, x);
      var op :| op in f.ops && op.id !in c.group && x == RedirectOp(c.outputs, c.call)(op);
      SharedStays(f, c, op);
      StillShared(f, c, v);
    }
  }

  // The caller is well formed again and starts with one call more.
  lemma AfterWellFormed(f: Func, c: Cut)
    requires Fits(f, c)
    ensures WellFormed(After(f, c))
    ensures Loads(After(f, c).ops, c.index + 1)
  {
    assert Loads(f.ops, c.index) && ReadsArgsOnly(CallOp(c));
    hide Fits, Closed, IsBoundary, Done, FromShared, EndsInTerminator;
    AfterIsDone(f, c);
    OrderedDone(f, c, |f.ops|);
    AfterEnds(f, c);
    AfterFromShared(f, c);
    DoneStart(f, c, |f.ops|);
    var start := f.ops[..c.index] + [CallOp(c)];
    assert forall i :: 0 <= i < |start| ==> start[i].kind.LoadCached? && ReadsArgsOnly(start[i]);
  }

  /* The new function */

  function Rebind(inputs: seq<nat>, v: Value): Value {
    if v.Arg? && v.index in inputs then Arg(IndexOf(inputs, v.index)) else v
  }

  function RebindOperands(inputs: seq<nat>, vs: seq<Value>): seq<Value> {
    seq(|vs|, (i: nat) requires i < |vs| => Rebind(inputs, vs[i]))
  }

  function CloneOf(inputs: seq<nat>): Op -> Op {
    (op: Op) => op.(operands := RebindOperands(inputs, op.operands))
  }

  function ReturnOp(c: Cut): Op {
    Op(c.call, Terminator, "func.return", map[], c.outputs, 0)
  }

  // The ops to clone: every shared op, then the group, each in the order of the body.
  function ToClone(ops: seq<Op>, group: set<nat>): seq<Op> {
    Filter(SharedOnly(), ops) + Filter(InGroup(group), ops)
  }

  function Callee(f: Func, c: Cut): Func {
    Func(|c.inputs|, {}, Mapped(CloneOf(c.inputs), ToClone(f.ops, c.group)) + [ReturnOp(c)])
  }

  lemma ToCloneMembers(ops: seq<Op>, group: set<nat>, op: Op)
    ensures op in ToClone(ops, group) <==> op in ops && (op.kind.Shared? || op.id in group)
  {
    FilterMembers(SharedOnly(), ops, op);
    FilterMembers(InGroup(group), ops, op);
  }

  lemma RebindMembers(inputs: seq<nat>, vs: seq<Value>, u: Value)
    ensures u in RebindOperands(inputs, vs) <==> exists v :: v in vs && u == Rebind(inputs, v)
  {
    var r := RebindOperands(inputs, vs);
    if u in r {
      var i :| 0 <= i < |r| && r[i] == u;
      assert vs[i] in vs;
    }
    if v :| v in vs && u == Rebind(inputs, v) {
      var i :| 0 <= i < |vs| && vs[i] == v;
      assert r[i] == u;
    }
  }

  lemma CloneReadDefined(inputs: seq<nat>, made: seq<Op>, op: Op, u: Value)
    requires forall v :: v in op.operands ==> (v.Arg? && v.index in inputs) || (v.Res? && Defined(0, made, v))
    requires u in RebindOperands(inputs, op.operands)
    ensures Defined(|inputs|, Mapped(CloneOf(inputs), made), u)
  {
    hide RebindOperands, Mapped;
    var g := CloneOf(inputs);
    RebindMembers(inputs, op.operands, u);
    var v :| v in op.operands && u == Rebind(inputs, v);
    if v.Res? {
      var q :| q in made && Defines(q, v);
      MappedMembers(g, made, g(q));
      assert Defines(g(q), u);
    }
  }

  // Appending a clone whose operands are arguments or clones already made.
  lemma OrderedClone(inputs: seq<nat>, made: seq<Op>, op: Op)
    requires Ordered(|inputs|, Mapped(CloneOf(inputs), made)) && !HasId(made, op.id)
    requires forall v :: v in op.operands ==> (v.Arg? && v.index in inputs) || (v.Res? && Defined(0, made, v))
    ensures Ordered(|inputs|, Mapped(CloneOf(inputs), made + [op]))
  {
    hide Ordered, Defined, RebindOperands, Mapped;
    var g := CloneOf(inputs);
    var clones := Mapped(g, made);
    MappedSnoc(g, made, op);
    forall u | u in g(op).operands
      ensures Defined(|inputs|, clones, u)
    {
      CloneReadDefined(inputs, made, op, u);
    }
    if HasId(clones, op.id) {
      var x :| x in clones && x.id == op.id;
      MappedMembers(g, made, x);
    }
    OrderedAppend(|inputs|, clones, g(op));
  }

  lemma {:induction false} OrderedSharedClones(f: Func, c: Cut, k: nat)
    requires Fits(f, c) && k <= |f.ops|
    ensures Ordered(|c.inputs|, Mapped(CloneOf(c.inputs), Filter(SharedOnly(), f.ops[..k])))
  {
    hide Closed, Loads, IsBoundary, EndsInTerminator;
    if k > 0 {
      OrderedSharedClones(f, c, k - 1);
      OrderedPrefix(f.args, f.ops, k);
      var before, op := f.ops[..k - 1], f.ops[k - 1];
      assert f.ops[..k] == before + [op] && Front(f.ops[..k]) == before;
      FilterSnoc(SharedOnly(), before, op);
      if op.kind.Shared? {
        var made := Filter(SharedOnly(), before);
        forall v | v in op.operands
          ensures v.Res? && Defined(0, made, v)
        {
          assert op in f.ops;
          EarlierShared(f, before, op, v);
        }
        NotMade(SharedOnly(), before, op.id);
        OrderedClone(c.inputs, made, op);
      } else {
        assert Filter(SharedOnly(), f.ops[..k]) == Filter(SharedOnly(), before);
      }
    }
  }

  lemma NotMade(keep: Op -> bool, ops: seq<Op>, id: nat)
    requires !HasId(ops, id)
    ensures !HasId(Filter(keep, ops), id)
  {
    if x :| x in Filter(keep, ops) && x.id == id {
      FilterMembers(keep, ops, x);
    }
  }

  // A value read after a prefix and defined by a shared op is defined by a shared op of the prefix.
  lemma EarlierShared(f: Func, before: seq<Op>, op: Op, v: Value)
    requires Ordered(f.args, f.ops)
    requires forall q :: q in before ==> q in f.ops
    requires Defined(f.args, before, v) && IsShared(f.ops, v)
    ensures Defined(0, Filter(SharedOnly(), before), v)
  {
    hide Ordered;
    var s :| s in f.ops && s.kind.Shared? && Defines(s, v);
    var q :| q in before && Defines(q, v);
    UniqueOp(f.args, f.ops, s, q);
    FilterMembers(SharedOnly(), before, q);
  }

  // The shared ops among all and the group's ops among the first k.
  function Partly(f: Func, c: Cut, k: nat): seq<Op>
    requires k <= |f.ops|
  {
    Filter(SharedOnly(), f.ops) + Filter(InGroup(c.group), f.ops[..k])
  }

  // What an op of the group reads has been cloned when its turn comes.
  lemma GroupReads(f: Func, c: Cut, k: nat, v: Value)
    requires Fits(f, c) && k < |f.ops| && f.ops[k].id in c.group && v in f.ops[k].operands
    requires Defined(f.args, f.ops[..k], v)
    ensures (v.Arg? && v.index in c.inputs) || (v.Res? && Defined(0, Partly(f, c, k), v))
  {
    hide Loads, IsBoundary, FromShared, Ordered, EndsInTerminator;
    assert f.ops[k] in f.ops;
    if v.Res? {
      var q :| q in f.ops[..k] && Defines(q, v);
      assert InScope(f.ops, c.group, c.inputs, v);
      var p := if IsShared(f.ops, v) then (var s :| s in f.ops && s.kind.Shared? && Defines(s, v); s)
               else (var s :| s in f.ops && s.id in c.group && Defines(s, v); s);
      UniqueOp(f.args, f.ops, p, q);
      FilterMembers(SharedOnly(), f.ops, p);
      FilterMembers(InGroup(c.group), f.ops[..k], p);
      assert p in Partly(f, c, k);
    }
  }

  lemma PartlyNext(f: Func, c: Cut, k: nat)
    requires k < |f.ops|
    ensures Partly(f, c, k + 1) == Partly(f, c, k) + (if f.ops[k].id in c.group then [f.ops[k]] else [])
  {
    assert f.ops[..k + 1] == f.ops[..k] + [f.ops[k]];
    FilterSnoc(InGroup(c.group), f.ops[..k], f.ops[k]);
  }

  lemma {:induction false} OrderedClones(f: Func, c: Cut, k: nat)
    requires Fits(f, c) && k <= |f.ops|
    ensures Ordered(|c.inputs|, Mapped(CloneOf(c.inputs), Partly(f, c, k)))
  {
    assert Partly(f, c, 0) == Filter(SharedOnly(), f.ops) by {
      assert f.ops[..0] == [];
    }
    hide Closed, Loads, IsBoundary, EndsInTerminator, FromShared, Partly, Mapped;
    if k == 0 {
      OrderedSharedClones(f, c, |f.ops|);
      assert f.ops[..|f.ops|] == f.ops;
    } else {
      OrderedClones(f, c, k - 1);
      PartlyNext(f, c, k - 1);
      if f.ops[k - 1].id in c.group {
        OrderedNextClone(f, c, k - 1);
      } else {
        assert Partly(f, c, k) == Partly(f, c, k - 1);
      }
    }
  }

  lemma OrderedNextClone(f: Func, c: Cut, k: nat)
    requires Fits(f, c) && k < |f.ops| && f.ops[k].id in c.group
    requires Ordered(|c.inputs|, Mapped(CloneOf(c.inputs), Partly(f, c, k)))
    ensures Ordered(|c.inputs|, Mapped(CloneOf(c.inputs), Partly(f, c, k) + [f.ops[k]]))
  {
    hide Closed, Loads, IsBoundary, EndsInTerminator, FromShared, Partly, Mapped;
    OrderedPrefix(f.args, f.ops, k + 1);
    assert Front(f.ops[..k + 1]) == f.ops[..k] && Last(f.ops[..k + 1]) == f.ops[k];
    forall v | v in f.ops[k].operands
      ensures (v.Arg? && v.index in c.inputs) || (v.Res? && Defined(0, Partly(f, c, k), v))
    {
      GroupReads(f, c, k, v);
    }
    NotYetCloned(f, c, k);
    OrderedClone(c.inputs, Partly(f, c, k), f.ops[k]);
  }

  lemma NotYetCloned(f: Func, c: Cut, k: nat)
    requires Fits(f, c) && k < |f.ops| && f.ops[k].id in c.group && !HasId(f.ops[..k], f.ops[k].id)
    ensures !HasId(Partly(f, c, k), f.ops[k].id)
  {
    hide Loads, IsBoundary, FromShared, Ordered, EndsInTerminator;
    var op := f.ops[k];
    assert op in f.ops;
    NotMade(InGroup(c.group), f.ops[..k], op.id);
    if x :| x in Filter(SharedOnly(), f.ops) && x.id == op.id {
      FilterMembers(SharedOnly(), f.ops, x);
      UniqueOp(f.args, f.ops, x, op);
    }
  }

  lemma CalleeMembers(f: Func, c: Cut, x: Op)
    ensures x in Callee(f, c).ops <==>
      x == ReturnOp(c) || exists op :: op in f.ops && (op.kind.Shared? || op.id in c.group) && x == CloneOf(c.inputs)(op)
  {
    MappedMembers(CloneOf(c.inputs), ToClone(f.ops, c.group), x);
    forall op
      ensures op in ToClone(f.ops, c.group) <==> op in f.ops && (op.kind.Shared? || op.id in c.group)
    {
      ToCloneMembers(f.ops, c.group, op);
    }
  }

  lemma OutputsDefined(f: Func, c: Cut, v: Value)
    requires Fits(f, c) && v in c.outputs
    ensures Defined(|c.inputs|, Mapped(CloneOf(c.inputs), ToClone(f.ops, c.group)), v)
  {
    hide Closed, Loads, WellFormed, Mapped, ToClone;
    var op :| op in f.ops && op.id in c.group && Defines(op, v);
    ToCloneMembers(f.ops, c.group, op);
    var x := CloneOf(c.inputs)(op);
    MappedMembers(CloneOf(c.inputs), ToClone(f.ops, c.group), x);
    assert Defines(x, v);
  }

  lemma CalleeOrdered(f: Func, c: Cut)
    requires Fits(f, c)
    ensures Ordered(|c.inputs|, Callee(f, c).ops)
  {
    hide Closed, Loads, IsBoundary, WellFormed, Mapped, Ordered, Defined;
    OrderedClones(f, c, |f.ops|);
    assert f.ops[..|f.ops|] == f.ops;
    var clones := Mapped(CloneOf(c.inputs), ToClone(f.ops, c.group));
    forall v | v in c.outputs
      ensures Defined(|c.inputs|, clones, v)
    {
      OutputsDefined(f, c, v);
    }
    if x :| x in clones && x.id == c.call {
      MappedMembers(CloneOf(c.inputs), ToClone(f.ops, c.group), x);
      var op :| op in ToClone(f.ops, c.group) && x == CloneOf(c.inputs)(op);
      ToCloneMembers(f.ops, c.group, op);
    }
    OrderedAppend(|c.inputs|, clones, ReturnOp(c));
  }

  lemma RebindShared(f: Func, c: Cut, op: Op)
    requires FromShared(f.ops) && op in f.ops && (op.kind.Creation? || op.kind.Shared?)
    ensures RebindOperands(c.inputs, op.operands) == op.operands
  {
    var r := RebindOperands(c.inputs, op.operands);
    forall i | 0 <= i < |r|
      ensures r[i] == op.operands[i]
    {
      assert op.operands[i] in op.operands;
      assert IsShared(f.ops, op.operands[i]);
    }
  }

  lemma CalleeFromShared(f: Func, c: Cut)
    requires Fits(f, c)
    ensures FromShared(Callee(f, c).ops)
  {
    hide Closed, Loads, IsBoundary, Ordered, EndsInTerminator, RebindOperands, Callee;
    forall x, v | x in Callee(f, c).ops && (x.kind.Creation? || x.kind.Shared?) && v in x.operands
      ensures IsShared(Callee(f, c).ops, v)
    {
      CalleeMembers(f, c, x);
      var op :| op in f.ops && (op.kind.Shared? || op.id in c.group) && x == CloneOf(c.inputs)(op);
      RebindShared(f, c, op);
      assert IsShared(f.ops, v);
      var s :| s in f.ops && s.kind.Shared? && Defines(s, v);
      CalleeMembers(f, c, CloneOf(c.inputs)(s));
      assert Defines(CloneOf(c.inputs)(s), v);
    }
  }

  lemma CalleeWellFormed(f: Func, c: Cut)
    requires Fits(f, c)
    ensures WellFormed(Callee(f, c)) && NoCalls(Callee(f, c).ops)
    ensures Returned(Callee(f, c)) == c.outputs
  {
    hide Loads, IsBoundary, Ordered, FromShared;
    CalleeOrdered(f, c);
    CalleeFromShared(f, c);
    var clones := Mapped(CloneOf(c.inputs), ToClone(f.ops, c.group));
    forall x | x in clones
      ensures !x.kind.Terminator? && !x.kind.LoadCached?
    {
      MappedMembers(CloneOf(c.inputs), ToClone(f.ops, c.group), x);
      var op :| op in ToClone(f.ops, c.group) && x == CloneOf(c.inputs)(op);
      ToCloneMembers(f.ops, c.group, op);
    }
    assert Front(clones + [ReturnOp(c)]) == clones;
  }

  /* Meaning */

  // What the values of the new function are, given those of the caller.
  function CalleeEnv(inputs: seq<nat>, env: Env): Env {
    (v: Value) => if v.Arg? then (if v.index < |inputs| then env(Arg(inputs[v.index])) else 0) else env(v)
  }

  function CallerEnv(c: Cut, env: Env): Env {
    (v: Value) => if v.Res? && v.op == c.call && v.result < |c.outputs| then env(c.outputs[v.result]) else env(v)
  }

  lemma RebindValue(c: Cut, env: Env, v: Value)
    requires v.Arg? ==> v.index in c.inputs
    ensures CalleeEnv(c.inputs, env)(Rebind(c.inputs, v)) == env(v)
  {}

  lemma CalleeSolved(interp: Interp, calls: Calls, f: Func, c: Cut, env: Env)
    requires Fits(f, c) && Solves(interp, calls, f.ops, env)
    ensures Solves(interp, NoCall, Callee(f, c).ops, CalleeEnv(c.inputs, env))
  {
    hide Loads, IsBoundary, Ordered, EndsInTerminator, Callee;
    var inner := CalleeEnv(c.inputs, env);
    forall x, r: nat | x in Callee(f, c).ops && r < x.results
      ensures inner(Res(x.id, r)) == ResultOf(interp, NoCall, x, inner, r)
    {
      CalleeMembers(f, c, x);
      var op :| op in f.ops && (op.kind.Shared? || op.id in c.group) && x == CloneOf(c.inputs)(op);
      if !op.kind.Shared? {
        forall i | 0 <= i < |op.operands|
          ensures inner(x.operands[i]) == env(op.operands[i])
        {
          assert op.operands[i] in op.operands;
          RebindValue(c, env, op.operands[i]);
        }
        assert Values(inner, x.operands) == Values(env, op.operands);
      }
    }
  }

  // Calling the new function on the values of its inputs yields the values of the group's outputs.
  lemma CalleeReturns(interp: Interp, calls: Calls, f: Func, c: Cut, env: Env)
    requires Fits(f, c) && Solves(interp, calls, f.ops, env)
    ensures Run(interp, NoCall, Callee(f, c), Values(CallerEnv(c, env), CallOp(c).operands)) == Values(env, c.outputs)
  {
    assert Callee(f, c).args == |c.inputs|;
    hide Loads, Ordered, EndsInTerminator, Callee, Run, Closed;
    CalleeWellFormed(f, c);
    CalleeSolved(interp, calls, f, c, env);
    var inner := CalleeEnv(c.inputs, env);
    var args := Values(CallerEnv(c, env), CallOp(c).operands);
    RunBySolution(interp, NoCall, Callee(f, c), inner, args);
    OutputsAreResults(f, c);
    forall i | 0 <= i < |c.outputs|
      ensures inner(c.outputs[i]) == env(c.outputs[i])
    {
      assert c.outputs[i] in c.outputs;
    }
    assert Values(inner, c.outputs) == Values(env, c.outputs);
  }

  predicate CallsWithin(ops: seq<Op>, n: nat) {
    forall op :: op in ops && op.kind.LoadCached? ==> op.kind.callee < n
  }

  lemma RedirectValue(f: Func, c: Cut, env: Env, op: Op, v: Value)
    requires Fits(f, c) && op in f.ops && v in op.operands
    ensures CallerEnv(c, env)(Redirect(c.outputs, c.call, v)) == env(v)
  {
    hide Loads, Closed;
    OperandDefined(f.args, f.ops, op, v);
  }

  lemma OperandsKeepValues(f: Func, c: Cut, env: Env, op: Op)
    requires Fits(f, c) && op in f.ops
    ensures Values(CallerEnv(c, env), RedirectOperands(c.outputs, c.call, op.operands)) == Values(env, op.operands)
  {
    hide Fits;
    var x := RedirectOperands(c.outputs, c.call, op.operands);
    forall i | 0 <= i < |op.operands|
      ensures CallerEnv(c, env)(x[i]) == env(op.operands[i])
    {
      RedirectValue(f, c, env, op, op.operands[i]);
    }
  }

  lemma EarlierCalls(interp: Interp, consts: seq<Func>, callee: Func, n: nat, args: seq<int>, r: nat)
    requires n < |consts|
    ensures CallsTo(interp, consts + [callee])(n, args, r) == CallsTo(interp, consts)(n, args, r)
  {}

  lemma KeptSolved(interp: Interp, consts: seq<Func>, f: Func, c: Cut, callee: Func, env: Env, op: Op, r: nat)
    requires Fits(f, c) && Solves(interp, CallsTo(interp, consts), f.ops, env) && CallsWithin(f.ops, |consts|)
    requires op in f.ops && op.id !in c.group && r < op.results
    ensures CallerEnv(c, env)(Res(op.id, r)) ==
            ResultOf(interp, CallsTo(interp, consts + [callee]), RedirectOp(c.outputs, c.call)(op), CallerEnv(c, env), r)
  {
    hide Loads, Closed, IsBoundary, WellFormed, CallsTo;
    OperandsKeepValues(f, c, env, op);
    if op.kind.LoadCached? {
      EarlierCalls(interp, consts, callee, op.kind.callee, Values(env, op.operands), r);
    }
    assert env(Res(op.id, r)) == ResultOf(interp, CallsTo(interp, consts), op, env, r);
  }

  lemma CallerSolved(interp: Interp, consts: seq<Func>, f: Func, c: Cut, env: Env)
    requires Fits(f, c) && c.index == |consts| && CallsWithin(f.ops, |consts|)
    requires Solves(interp, CallsTo(interp, consts), f.ops, env)
    ensures Solves(interp, CallsTo(interp, consts + [Callee(f, c)]), After(f, c).ops, CallerEnv(c, env))
  {
    assert Callee(f, c).ops != [];
    hide Loads, Closed, IsBoundary, WellFormed, After, Callee, Run;
    var calls := CallsTo(interp, consts + [Callee(f, c)]);
    var outer := CallerEnv(c, env);
    CalleeReturns(interp, CallsTo(interp, consts), f, c, env);
    CalleeWellFormed(f, c);
    forall x, r: nat | x in After(f, c).ops && r < x.results
      ensures outer(Res(x.id, r)) == ResultOf(interp, calls, x, outer, r)
    {
      AfterMembers(f, c, x);
      if x != CallOp(c) {
        var op :| op in f.ops && op.id !in c.group && x == RedirectOp(c.outputs, c.call)(op);
        KeptSolved(interp, consts, f, c, Callee(f, c), env, op, r);
      }
    }
  }

  // The function returns what it did: outlining a closed group changes no result.
  lemma OutliningKeepsMeaning(interp: Interp, p: Program, c: Cut, args: seq<int>)
    requires Fits(p.main, c) && c.index == |p.consts| && CallsWithin(p.main.ops, |p.consts|)
    requires |args| == p.main.args
    ensures WellFormed(After(p.main, c))
    ensures RunProgram(interp, Program(After(p.main, c), p.consts + [Callee(p.main, c)]), args) == RunProgram(interp, p, args)
  {
    assert After(p.main, c).args == p.main.args;
    hide Loads, Closed, IsBoundary, After, Callee, CallsTo, Eval, Ordered, FromShared;
    var f := p.main;
    var calls := CallsTo(interp, p.consts);
    var env := Eval(interp, calls, f.ops, ArgEnv(args));
    EvalSolves(interp, calls, f.args, f.ops, ArgEnv(args));
    CallerSolved(interp, p.consts, f, c, env);
    AfterWellFormed(f, c);
    AfterEnds(f, c);
    RunBySolution(interp, CallsTo(interp, p.consts + [Callee(f, c)]), After(f, c), CallerEnv(c, env), args);
    OperandsKeepValues(f, c, env, Last(f.ops));
  }

  /* The groups still to be moved */

  // Another closed group keeps its ops, and stays closed.
  lemma OtherGroupUntouched(f: Func, c: Cut, group: set<nat>, inputs: seq<nat>, op: Op)
    requires Fits(f, c) && Closed(f.ops, group, inputs) && group !! c.group
    requires op in f.ops && op.id in group
    ensures RedirectOp(c.outputs, c.call)(op) == op && op in After(f, c).ops
  {
    hide After, Loads, IsBoundary, FromShared, EndsInTerminator, Ordered;
    forall v | v in op.operands
      ensures !Produced(f.ops, c.group, v)
    {
      assert InScope(f.ops, group, inputs, v);
      if IsShared(f.ops, v) {
        SharedNotProduced(f, c, v);
      } else if a, b :| a in f.ops && a.id in group && Defines(a, v) && b in f.ops && b.id in c.group && Defines(b, v) {
        UniqueOp(f.args, f.ops, a, b);
      }
    }
    Untouched(f, c, op);
  }

  lemma OtherGroupInScope(f: Func, c: Cut, group: set<nat>, inputs: seq<nat>, v: Value)
    requires Fits(f, c) && Closed(f.ops, group, inputs) && group !! c.group
    requires InScope(f.ops, group, inputs, v)
    ensures InScope(After(f, c).ops, group, inputs, v)
  {
    hide After, Closed, IsBoundary, WellFormed;
    if IsShared(f.ops, v) {
      StillShared(f, c, v);
    } else if v.Res? {
      var p :| p in f.ops && p.id in group && Defines(p, v);
      OtherGroupUntouched(f, c, group, inputs, p);
      assert Produced(After(f, c).ops, group, v);
    }
  }

  lemma OtherGroupClosed(f: Func, c: Cut, group: set<nat>, inputs: seq<nat>)
    requires Fits(f, c) && Closed(f.ops, group, inputs) && group !! c.group && c.call !in group
    ensures Closed(After(f, c).ops, group, inputs)
  {
    hide After, Loads, IsBoundary, WellFormed, InScope;
    forall x | x in After(f, c).ops && x.id in group
      ensures x.kind.Creation? || x.kind.Ordinary?
      ensures forall v :: v in x.operands ==> InScope(After(f, c).ops, group, inputs, v)
    {
      AfterMembers(f, c, x);
      var op :| op in f.ops && op.id !in c.group && x == RedirectOp(c.outputs, c.call)(op);
      OtherGroupUntouched(f, c, group, inputs, op);
      forall v | v in x.operands
        ensures InScope(After(f, c).ops, group, inputs, v)
      {
        OtherGroupInScope(f, c, group, inputs, v);
      }
    }
  }
}
