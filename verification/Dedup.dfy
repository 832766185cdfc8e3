/**
 * Merging shared ops with equal name and attributes into the first of them: the shape of the
 * result, and why nothing else changes.
 */
module Dedup {
  import opened IR
  import opened Outlining
  import opened Wrappers

  predicate SameKey(a: Op, b: Op) {
    a.name == b.name && a.attrs == b.attrs
  }

  // The number of the first shared op with this name and these attributes.
  function FirstWith(ops: seq<Op>, name: string, attrs: Attributes): Option<nat> {
    if ops == [] then None
    else
      var earlier := FirstWith(Front(ops), name, attrs);
      if earlier.Some? then earlier
      else if Last(ops).kind.Shared? && Last(ops).name == name && Last(ops).attrs == attrs then Some(Last(ops).id)
      else None
  }

  // Each duplicate with the op that stands for it.
  function Dups(ops: seq<Op>): map<nat, nat> {
    if ops == [] then map[]
    else
      var dups := Dups(Front(ops));
      var first := FirstWith(Front(ops), Last(ops).name, Last(ops).attrs);
      if Last(ops).kind.Shared? && first.Some? then dups[Last(ops).id := first.value] else dups
  }

  function Merge(dups: map<nat, nat>, v: Value): Value {
    if v.Res? && v.op in dups then Res(dups[v.op], v.result) else v
  }

  function MergeAll(dups: map<nat, nat>, vs: seq<Value>): (r: seq<Value>)
    ensures |r| == |vs|
  {
    seq(|vs|, (i: nat) requires i < |vs| => Merge(dups, vs[i]))
  }

  function MergeOp(dups: map<nat, nat>): Op -> Op {
    (op: Op) => op.(operands := MergeAll(dups, op.operands))
  }

  function Deduplicated(f: Func): Func {
    f.(ops := Filter(Outside(Dups(f.ops).Keys), Mapped(MergeOp(Dups(f.ops)), f.ops)))
  }

  // The assumption of the source: ops with equal name and attributes are equivalent, so they have
  // as many results.
  ghost predicate SameResults(ops: seq<Op>) {
    forall a, b :: a in ops && b in ops && a.kind.Shared? && b.kind.Shared? && SameKey(a, b) ==> a.results == b.results
  }

  ghost predicate OnePerKey(ops: seq<Op>) {
    forall a, b :: a in ops && b in ops && a.kind.Shared? && b.kind.Shared? && SameKey(a, b) ==> a == b
  }

  lemma MergeMembers(dups: map<nat, nat>, vs: seq<Value>, u: Value)
    ensures u in MergeAll(dups, vs) <==> exists v :: v in vs && u == Merge(dups, v)
  {
    var r := MergeAll(dups, vs);
    if u in r {
      var i :| 0 <= i < |r| && r[i] == u;
      assert vs[i] in vs;
    }
    if v :| v in vs && u == Merge(dups, v) {
      var i :| 0 <= i < |vs| && vs[i] == v;
      assert r[i] == u;
    }
  }

  lemma {:induction false} FirstIs(ops: seq<Op>, name: string, attrs: Attributes) returns (first: Op)
    requires FirstWith(ops, name, attrs).Some?
    ensures first in ops && first.kind.Shared? && first.name == name && first.attrs == attrs
    ensures FirstWith(ops, name, attrs) == Some(first.id)
  {
    assert ops == Front(ops) + [Last(ops)];
    if FirstWith(Front(ops), name, attrs).Some? {
      first := FirstIs(Front(ops), name, attrs);
    } else {
      first := Last(ops);
    }
  }

  lemma {:induction false} FirstStays(ops: seq<Op>, k: nat, name: string, attrs: Attributes)
    requires k <= |ops| && FirstWith(ops[..k], name, attrs).Some?
    ensures FirstWith(ops, name, attrs) == FirstWith(ops[..k], name, attrs)
  {
    if k < |ops| {
      assert Front(ops)[..k] == ops[..k];
      FirstStays(Front(ops), k, name, attrs);
    } else {
      assert ops[..k] == ops;
    }
  }

  // A duplicate is a shared op that is not the first with its key; the first stands for it.
  lemma {:induction false} DupIs(args: nat, ops: seq<Op>, id: nat) returns (dup: Op, first: Op)
    requires Ordered(args, ops) && id in Dups(ops)
    ensures dup in ops && dup.id == id && dup.kind.Shared?
    ensures first in ops && first.kind.Shared? && SameKey(dup, first) && first.id == Dups(ops)[id]
    ensures FirstWith(ops, dup.name, dup.attrs) == Some(first.id) && first.id != id
    decreases |ops|
  {
    assert ops == Front(ops) + [Last(ops)];
    var last := Last(ops);
    if last.kind.Shared? && FirstWith(Front(ops), last.name, last.attrs).Some? && last.id == id {
      dup := last;
      first := FirstIs(Front(ops), last.name, last.attrs);
    } else {
      dup, first := DupIs(args, Front(ops), id);
    }
  }

  lemma {:induction false} NotDupIsFirst(args: nat, ops: seq<Op>, op: Op)
    requires Ordered(args, ops) && op in ops && op.kind.Shared? && op.id !in Dups(ops)
    ensures FirstWith(ops, op.name, op.attrs) == Some(op.id)
  {
    assert ops == Front(ops) + [Last(ops)];
    if op in Front(ops) {
      NotDupIsFirst(args, Front(ops), op);
    }
  }

  // Exactly the shared ops go that have the name and the attributes of an earlier one.
  lemma {:induction false} DuplicatesAre(args: nat, ops: seq<Op>, i: nat)
    requires Ordered(args, ops) && i < |ops|
    ensures ops[i].id in Dups(ops) <==>
      ops[i].kind.Shared? && exists j :: 0 <= j < i && ops[j].kind.Shared? && ops[j].name == ops[i].name && ops[j].attrs == ops[i].attrs
    decreases |ops|
  {
    var last := Last(ops);
    assert Front(ops) + [last] == ops;
    if i < |ops| - 1 {
      DuplicatesAre(args, Front(ops), i);
      assert Front(ops)[i] in Front(ops);
    } else {
      DupsAreOfOps(args, Front(ops), last.id);
      FirstExistsIff(Front(ops), last.name, last.attrs);
    }
  }

  lemma DupsAreOfOps(args: nat, ops: seq<Op>, id: nat)
    requires Ordered(args, ops) && !HasId(ops, id)
    ensures id !in Dups(ops)
  {
    if id in Dups(ops) {
      var dup, first := DupIs(args, ops, id);
    }
  }

  lemma {:induction false} FirstExistsIff(ops: seq<Op>, name: string, attrs: Attributes)
    ensures FirstWith(ops, name, attrs).Some? <==>
      exists j :: 0 <= j < |ops| && ops[j].kind.Shared? && ops[j].name == name && ops[j].attrs == attrs
  {
    if ops != [] {
      FirstExistsIff(Front(ops), name, attrs);
      assert forall j :: 0 <= j < |ops| - 1 ==> Front(ops)[j] == ops[j];
    }
  }

  lemma FirstIsNoDup(args: nat, ops: seq<Op>, first: Op)
    requires Ordered(args, ops) && first in ops && FirstWith(ops, first.name, first.attrs) == Some(first.id)
    ensures first.id !in Dups(ops)
  {
    hide Ordered, FirstWith, Dups;
    if first.id in Dups(ops) {
      var dup, other := DupIs(args, ops, first.id);
      UniqueOp(args, ops, dup, first);
    }
  }

  lemma {:induction false} DupsOfPrefix(args: nat, ops: seq<Op>, k: nat, id: nat)
    requires Ordered(args, ops) && k <= |ops| && id in Dups(ops) && HasId(ops[..k], id)
    ensures id in Dups(ops[..k]) && Dups(ops[..k])[id] == Dups(ops)[id]
  {
    if k < |ops| {
      assert Front(ops)[..k] == ops[..k];
      assert id != Last(ops).id by {
        var x :| x in ops[..k] && x.id == id;
        assert x in Front(ops);
      }
      DupsOfPrefix(args, Front(ops), k, id);
    } else {
      assert ops[..k] == ops;
    }
  }

  /* Well-formedness */

  // What the first k ops become.
  function Done(f: Func, k: nat): seq<Op>
    requires k <= |f.ops|
  {
    Filter(Outside(Dups(f.ops).Keys), Mapped(MergeOp(Dups(f.ops)), f.ops[..k]))
  }

  lemma DoneNext(f: Func, k: nat)
    requires k < |f.ops|
    ensures Done(f, k + 1) == Done(f, k) + (if f.ops[k].id in Dups(f.ops) then [] else [MergeOp(Dups(f.ops))(f.ops[k])])
  {
    hide Dups, Mapped;
    var g := MergeOp(Dups(f.ops));
    assert f.ops[..k + 1] == f.ops[..k] + [f.ops[k]];
    MappedSnoc(g, f.ops[..k], f.ops[k]);
    FilterSnoc(Outside(Dups(f.ops).Keys), Mapped(g, f.ops[..k]), g(f.ops[k]));
  }

  lemma DoneMembers(f: Func, k: nat, x: Op)
    requires k <= |f.ops|
    ensures x in Done(f, k) <==> exists op :: op in f.ops[..k] && op.id !in Dups(f.ops) && x == MergeOp(Dups(f.ops))(op)
  {
    hide Dups, Mapped, MergeAll;
    var g := MergeOp(Dups(f.ops));
    FilterMembers(Outside(Dups(f.ops).Keys), Mapped(g, f.ops[..k]), x);
    MappedMembers(g, f.ops[..k], x);
  }

  lemma MergedReadDefined(f: Func, k: nat, u: Value)
    requires Ordered(f.args, f.ops) && SameResults(f.ops) && k < |f.ops| && u in MergeAll(Dups(f.ops), f.ops[k].operands)
    ensures Defined(f.args, Done(f, k), u)
  {
    hide Done, Dups, FirstWith, MergeAll, Ordered;
    MergeMembers(Dups(f.ops), f.ops[k].operands, u);
    var v :| v in f.ops[k].operands && u == Merge(Dups(f.ops), v);
    OrderedReads(f.args, f.ops, k, v);
    if v.Res? {
      var q :| q in f.ops[..k] && Defines(q, v);
      assert q in f.ops;
      if q.id in Dups(f.ops) {
        var first := MergedIsEarlier(f, k, q);
        var x := MergeOp(Dups(f.ops))(first);
        DoneMembers(f, k, x);
        assert Defines(x, u);
      } else {
        var x := MergeOp(Dups(f.ops))(q);
        DoneMembers(f, k, x);
        assert Defines(x, u);
      }
    }
  }

  // What stands for a duplicate precedes it and stays.
  lemma MergedIsEarlier(f: Func, k: nat, q: Op) returns (first: Op)
    requires Ordered(f.args, f.ops) && SameResults(f.ops) && k <= |f.ops| && q in f.ops[..k] && q.id in Dups(f.ops)
    ensures first in f.ops[..k] && first.kind.Shared? && q.kind.Shared? && SameKey(q, first)
    ensures first.id == Dups(f.ops)[q.id] && first.id !in Dups(f.ops) && first.results == q.results
  {
    hide Dups, FirstWith, Ordered;
    var ops := f.ops[..k];
    OrderedPrefix(f.args, f.ops, k);
    DupsOfPrefix(f.args, f.ops, k, q.id);
    var dup;
    dup, first := DupIs(f.args, ops, q.id);
    UniqueOp(f.args, ops, dup, q);
    FirstStays(f.ops, k, first.name, first.attrs);
    assert first in f.ops && q in f.ops;
    FirstIsNoDup(f.args, f.ops, first);
  }

  lemma {:induction false} OrderedDone(f: Func, k: nat)
    requires Ordered(f.args, f.ops) && SameResults(f.ops) && k <= |f.ops|
    ensures Ordered(f.args, Done(f, k))
  {
    assert k == 0 ==> Done(f, k) == [] && Ordered(f.args, Done(f, k));
    hide Dups, Defined, SameResults, Ordered, MergeAll, Done;
    if k > 0 {
      OrderedDone(f, k - 1);
      DoneNext(f, k - 1);
      var op := f.ops[k - 1];
      if op.id in Dups(f.ops) {
        assert Done(f, k) == Done(f, k - 1);
      } else {
        var x := MergeOp(Dups(f.ops))(op);
        forall u | u in x.operands
          ensures Defined(f.args, Done(f, k - 1), u)
        {
          MergedReadDefined(f, k - 1, u);
        }
        NewInDone(f, k - 1);
        OrderedAppend(f.args, Done(f, k - 1), x);
      }
    }
  }

  lemma NewInDone(f: Func, k: nat)
    requires Ordered(f.args, f.ops) && k < |f.ops|
    ensures !HasId(Done(f, k), f.ops[k].id)
  {
    hide Dups, Done, MergeAll;
    OrderedPrefix(f.args, f.ops, k + 1);
    assert Front(f.ops[..k + 1]) == f.ops[..k] && Last(f.ops[..k + 1]) == f.ops[k];
    forall x | x in Done(f, k)
      ensures x.id != f.ops[k].id
    {
      DoneMembers(f, k, x);
    }
  }

  lemma DeduplicatedIsDone(f: Func)
    ensures Deduplicated(f) == f.(ops := Done(f, |f.ops|))
  {
    assert f.ops[..|f.ops|] == f.ops;
  }

  lemma DeduplicatedMembers(f: Func, x: Op)
    ensures x in Deduplicated(f).ops <==> exists op :: op in f.ops && op.id !in Dups(f.ops) && x == MergeOp(Dups(f.ops))(op)
  {
    hide Dups, Done, MergeAll, Deduplicated;
    DeduplicatedIsDone(f);
    DoneMembers(f, |f.ops|, x);
    assert f.ops[..|f.ops|] == f.ops;
  }

  lemma OnlySharedAreDups(f: Func, op: Op)
    requires Ordered(f.args, f.ops) && op in f.ops && op.id in Dups(f.ops)
    ensures op.kind.Shared?
  {
    hide Dups, Ordered, FirstWith;
    var dup, first := DupIs(f.args, f.ops, op.id);
    UniqueOp(f.args, f.ops, dup, op);
  }

  lemma DeduplicatedEnds(f: Func)
    requires WellFormed(f)
    ensures EndsInTerminator(Deduplicated(f).ops)
    ensures Returned(Deduplicated(f)) == MergeAll(Dups(f.ops), Returned(f))
  {
    hide Dups, Done, MergeAll, Deduplicated, Ordered, FromShared;
    var n := |f.ops| - 1;
    assert f.ops[n] in f.ops;
    if f.ops[n].id in Dups(f.ops) {
      OnlySharedAreDups(f, f.ops[n]);
    }
    DeduplicatedIsDone(f);
    DoneNext(f, n);
    forall x | x in Done(f, n)
      ensures !x.kind.Terminator?
    {
      DoneMembers(f, n, x);
      assert f.ops[..n] == Front(f.ops);
    }
    var after := Done(f, n + 1);
    assert Front(after) == Done(f, n);
  }

  lemma MergedIsShared(f: Func, v: Value)
    requires Ordered(f.args, f.ops) && SameResults(f.ops) && IsShared(f.ops, v)
    ensures IsShared(Deduplicated(f).ops, Merge(Dups(f.ops), v))
  {
    hide Dups, Ordered, MergeAll, Deduplicated;
    var s :| s in f.ops && s.kind.Shared? && Defines(s, v);
    var stands := s;
    if s.id in Dups(f.ops) {
      assert f.ops[..|f.ops|] == f.ops;
      stands := MergedIsEarlier(f, |f.ops|, s);
    }
    var x := MergeOp(Dups(f.ops))(stands);
    DeduplicatedMembers(f, x);
    assert Defines(x, Merge(Dups(f.ops), v));
  }

  lemma DeduplicatedFromShared(f: Func)
    requires Ordered(f.args, f.ops) && SameResults(f.ops) && FromShared(f.ops)
    ensures FromShared(Deduplicated(f).ops)
  {
    hide Dups, Ordered, MergeAll, Deduplicated, IsShared, SameResults;
    forall x, u | x in Deduplicated(f).ops && (x.kind.Creation? || x.kind.Shared?) && u in x.operands
      ensures IsShared(Deduplicated(f).ops, u)
    {
      DeduplicatedMembers(f, x);
      var op :| op in f.ops && op.id !in Dups(f.ops) && x == MergeOp(Dups(f.ops))(op);
      MergeMembers(Dups(f.ops), op.operands, u);
      var v :| v in op.operands && u == Merge(Dups(f.ops), v);
      MergedIsShared(f, v);
    }
  }

  lemma DeduplicatedWellFormed(f: Func)
    requires WellFormed(f) && SameResults(f.ops)
    ensures WellFormed(Deduplicated(f))
  {
    hide Dups, Ordered, Deduplicated, FromShared, EndsInTerminator, SameResults, Done;
    DeduplicatedIsDone(f);
    OrderedDone(f, |f.ops|);
    DeduplicatedEnds(f);
    DeduplicatedFromShared(f);
  }

  // One shared op is left for each name and attributes.
  lemma DeduplicatedOnePerKey(f: Func)
    requires Ordered(f.args, f.ops)
    ensures OnePerKey(Deduplicated(f).ops)
  {
    hide Dups, Ordered, Deduplicated, FirstWith, MergeAll;
    forall x, y | x in Deduplicated(f).ops && y in Deduplicated(f).ops && x.kind.Shared? && y.kind.Shared? && SameKey(x, y)
      ensures x == y
    {
      DeduplicatedMembers(f, x);
      DeduplicatedMembers(f, y);
      var a :| a in f.ops && a.id !in Dups(f.ops) && x == MergeOp(Dups(f.ops))(a);
      var b :| b in f.ops && b.id !in Dups(f.ops) && y == MergeOp(Dups(f.ops))(b);
      NotDupIsFirst(f.args, f.ops, a);
      NotDupIsFirst(f.args, f.ops, b);
      UniqueOp(f.args, f.ops, a, b);
    }
  }

  // An op stays exactly when no earlier shared op has its name and attributes, or it is not shared.
  lemma FirstsStay(f: Func, i: nat)
    requires Ordered(f.args, f.ops) && i < |f.ops|
    ensures HasId(Deduplicated(f).ops, f.ops[i].id) <==>
      !(f.ops[i].kind.Shared? && exists j ::
          0 <= j < i && f.ops[j].kind.Shared? && f.ops[j].name == f.ops[i].name && f.ops[j].attrs == f.ops[i].attrs)
  {
    hide Ordered, Dups, MergeAll, Deduplicated;
    DuplicatesAre(f.args, f.ops, i);
    var op := f.ops[i];
    if op.id !in Dups(f.ops) {
      DeduplicatedMembers(f, MergeOp(Dups(f.ops))(op));
    }
    if x :| x in Deduplicated(f).ops && x.id == op.id {
      DeduplicatedMembers(f, x);
      var q :| q in f.ops && q.id !in Dups(f.ops) && x == MergeOp(Dups(f.ops))(q);
    }
  }

  // No shared op is lost: every name and attributes there was is still there.
  lemma DeduplicatedKeepsKeys(f: Func, op: Op) returns (kept: Op)
    requires Ordered(f.args, f.ops) && SameResults(f.ops) && op in f.ops && op.kind.Shared?
    ensures kept in Deduplicated(f).ops && kept.kind.Shared? && SameKey(op, kept)
  {
    hide Dups, Ordered, Deduplicated, FirstWith, MergeAll;
    var stands := op;
    if op.id in Dups(f.ops) {
      assert f.ops[..|f.ops|] == f.ops;
      stands := MergedIsEarlier(f, |f.ops|, op);
    }
    kept := MergeOp(Dups(f.ops))(stands);
    DeduplicatedMembers(f, kept);
  }

  lemma {:induction false} NoDups(args: nat, ops: seq<Op>)
    requires Ordered(args, ops) && OnePerKey(ops)
    ensures Dups(ops) == map[]
  {
    if ops != [] {
      assert ops == Front(ops) + [Last(ops)];
      NoDups(args, Front(ops));
      var last := Last(ops);
      if last.kind.Shared? && FirstWith(Front(ops), last.name, last.attrs).Some? {
        var first := FirstIs(Front(ops), last.name, last.attrs);
        assert false;
      }
    }
  }

  lemma MergeNothing(op: Op)
    ensures MergeOp(map[])(op) == op
  {
    assert MergeAll(map[], op.operands) == op.operands;
  }

  // Deduplicating again changes nothing.
  lemma DeduplicationIsIdempotent(f: Func)
    requires WellFormed(f) && SameResults(f.ops)
    ensures Deduplicated(Deduplicated(f)) == Deduplicated(f)
  {
    hide Ordered, FromShared, EndsInTerminator;
    var g := Deduplicated(f);
    DeduplicatedWellFormed(f);
    DeduplicatedOnePerKey(f);
    NoDups(g.args, g.ops);
    forall i | 0 <= i < |g.ops|
      ensures MergeOp(Dups(g.ops))(g.ops[i]) == g.ops[i]
    {
      MergeNothing(g.ops[i]);
    }
    assert Mapped(MergeOp(Dups(g.ops)), g.ops) == g.ops;
    FilterAll(Outside(Dups(g.ops).Keys), g.ops);
  }

  /* Meaning */

  // A duplicate and what stands for it have the same values.
  lemma MergedValue(interp: Interp, calls: Calls, f: Func, env: Env, op: Op, v: Value)
    requires Ordered(f.args, f.ops) && SameResults(f.ops) && Solves(interp, calls, f.ops, env)
    requires op in f.ops && v in op.operands
    ensures env(Merge(Dups(f.ops), v)) == env(v)
  {
    hide Dups, Ordered, FirstWith;
    OperandDefined(f.args, f.ops, op, v);
    if v.Res? && v.op in Dups(f.ops) {
      var q :| q in f.ops && Defines(q, v);
      assert f.ops[..|f.ops|] == f.ops;
      var first := MergedIsEarlier(f, |f.ops|, q);
      assert env(Res(first.id, v.result)) == ResultOf(interp, calls, first, env, v.result);
      assert env(Res(q.id, v.result)) == ResultOf(interp, calls, q, env, v.result);
    }
  }

  lemma MergedValues(interp: Interp, calls: Calls, f: Func, env: Env, op: Op)
    requires Ordered(f.args, f.ops) && SameResults(f.ops) && Solves(interp, calls, f.ops, env) && op in f.ops
    ensures Values(env, MergeAll(Dups(f.ops), op.operands)) == Values(env, op.operands)
  {
    hide Dups, Ordered, Solves, SameResults, Merge;
    var merged := MergeAll(Dups(f.ops), op.operands);
    forall i | 0 <= i < |op.operands|
      ensures env(merged[i]) == env(op.operands[i])
    {
      MergedValue(interp, calls, f, env, op, op.operands[i]);
    }
    assert Values(env, merged) == Values(env, op.operands);
  }

  lemma DeduplicatedSolved(interp: Interp, calls: Calls, f: Func, env: Env)
    requires Ordered(f.args, f.ops) && SameResults(f.ops) && Solves(interp, calls, f.ops, env)
    ensures Solves(interp, calls, Deduplicated(f).ops, env)
  {
    hide Dups, Ordered, SameResults, MergeAll, Deduplicated;
    forall x, r: nat | x in Deduplicated(f).ops && r < x.results
      ensures env(Res(x.id, r)) == ResultOf(interp, calls, x, env, r)
    {
      DeduplicatedMembers(f, x);
      var op :| op in f.ops && op.id !in Dups(f.ops) && x == MergeOp(Dups(f.ops))(op);
      MergedValues(interp, calls, f, env, op);
      assert env(Res(op.id, r)) == ResultOf(interp, calls, op, env, r);
    }
  }

  // Merging duplicates changes no result.
  lemma DeduplicationKeepsMeaning(interp: Interp, p: Program, args: seq<int>)
    requires WellFormed(p.main) && SameResults(p.main.ops) && |args| == p.main.args
    ensures WellFormed(Deduplicated(p.main))
    ensures RunProgram(interp, Program(Deduplicated(p.main), p.consts), args) == RunProgram(interp, p, args)
  {
    assert Deduplicated(p.main).args == p.main.args;
    hide Dups, Ordered, SameResults, MergeAll, Deduplicated, CallsTo, Eval, FromShared;
    var f := p.main;
    var calls := CallsTo(interp, p.consts);
    var env := Eval(interp, calls, f.ops, ArgEnv(args));
    EvalSolves(interp, calls, f.args, f.ops, ArgEnv(args));
    DeduplicatedSolved(interp, calls, f, env);
    DeduplicatedWellFormed(f);
    DeduplicatedEnds(f);
    RunBySolution(interp, calls, Deduplicated(f), env, args);
    assert Last(f.ops) in f.ops;
    MergedValues(interp, calls, f, env, Last(f.ops));
  }
}
