/**
 * The undo of `lib/Transforms/ConstEvalHoist.cpp`: every const-eval function is inlined at its one
 * call, the shared ops that come back as duplicates are merged, and the functions are deleted.
 */
module ConstEvalUndo {
  import opened IR
  import opened Outlining
  import opened Inlining
  import opened Wrappers
  import Dedup
  import H = ConstEvalHoist

  datatype Outcome = Completed | NoSuchFunction | UsedTwice | NeverCalled | MissingReturn | StillUsed

  /* What has to hold of a program for its calls to make sense */

  // A call passes and takes what its function does.
  ghost predicate Matches(op: Op, consts: seq<Func>) {
    op.kind.LoadCached? ==>
      && op.kind.callee < |consts| && consts[op.kind.callee].ops != []
      && |op.operands| == consts[op.kind.callee].args && op.results == |Returned(consts[op.kind.callee])|
  }

  ghost predicate Leaf(k: Func) {
    WellFormed(k) && NoCalls(k.ops) && k.ops != []
  }

  ghost predicate Coherent(p: Program) {
    && WellFormed(p.main)
    && (forall k :: k in p.consts ==> Leaf(k))
    && (forall op :: op in p.main.ops ==> Matches(op, p.consts))
  }

  predicate Calls(op: Op, c: nat) {
    op.kind == LoadCached(c)
  }

  predicate IsCalled(ops: seq<Op>, c: nat) {
    exists op :: op in ops && Calls(op, c)
  }

  // The functions from the c-th on are called exactly once, and no other is.
  ghost predicate OneCallEach(ops: seq<Op>, c: nat, n: nat) {
    && (forall d :: c <= d < n ==> IsCalled(ops, d))
    && (forall a, b :: a in ops && b in ops && a.kind.LoadCached? && a.kind == b.kind ==> a == b)
    && (forall op :: op in ops && op.kind.LoadCached? ==> c <= op.kind.callee < n)
  }

  // Each op that calls names a function there is, and for each function one op calls it.
  lemma OneCallEachIff(args: nat, ops: seq<Op>, n: nat)
    requires Ordered(args, ops)
    ensures OneCallEach(ops, 0, n) <==>
      && (forall i :: 0 <= i < |ops| && ops[i].kind.LoadCached? ==> ops[i].kind.callee < n)
      && (forall c: nat :: c < n ==> IsCalled(ops, c))
      && (forall i, j :: 0 <= i < j < |ops| && ops[i].kind.LoadCached? && ops[j].kind.LoadCached? ==> ops[i].kind.callee != ops[j].kind.callee)
  {
    hide Ordered, OneCallEach, IsCalled;
    OneCallEachIs(ops, n);
    SingleCallsAt(args, ops);
    CalleesAt(ops, n);
  }

  lemma CalleesAt(ops: seq<Op>, n: nat)
    ensures (forall op :: op in ops && op.kind.LoadCached? ==> op.kind.callee < n) <==>
      (forall i :: 0 <= i < |ops| && ops[i].kind.LoadCached? ==> ops[i].kind.callee < n)
  {
    assert forall i :: 0 <= i < |ops| ==> ops[i] in ops;
  }

  lemma OneCallEachIs(ops: seq<Op>, n: nat)
    ensures OneCallEach(ops, 0, n) <==>
      && (forall op :: op in ops && op.kind.LoadCached? ==> op.kind.callee < n)
      && (forall c: nat :: c < n ==> IsCalled(ops, c))
      && (forall a, b :: a in ops && b in ops && a.kind.LoadCached? && a.kind == b.kind ==> a == b)
  {
    hide IsCalled;
  }

  // A function is called when some op's kind says so.
  lemma CalledAt(ops: seq<Op>, c: nat)
    ensures IsCalled(ops, c) <==> exists i :: 0 <= i < |ops| && ops[i].kind == LoadCached(c)
  {
    if i :| 0 <= i < |ops| && ops[i].kind == LoadCached(c) {
      assert ops[i] in ops;
    }
  }

  lemma SingleCallsAt(args: nat, ops: seq<Op>)
    requires Ordered(args, ops)
    ensures (forall a, b :: a in ops && b in ops && a.kind.LoadCached? && a.kind == b.kind ==> a == b) <==>
      (forall i, j :: 0 <= i < j < |ops| && ops[i].kind.LoadCached? && ops[j].kind.LoadCached? ==> ops[i].kind.callee != ops[j].kind.callee)
  {
    H.OrderedIsDistinct(args, ops);
    hide Ordered;
    if forall a, b :: a in ops && b in ops && a.kind.LoadCached? && a.kind == b.kind ==> a == b {
      forall i, j | 0 <= i < j < |ops| && ops[i].kind.LoadCached? && ops[j].kind.LoadCached?
        ensures ops[i].kind.callee != ops[j].kind.callee
      {
        assert ops[i] in ops && ops[j] in ops;
      }
    }
    if forall i, j :: 0 <= i < j < |ops| && ops[i].kind.LoadCached? && ops[j].kind.LoadCached? ==> ops[i].kind.callee != ops[j].kind.callee {
      forall a, b | a in ops && b in ops && a.kind.LoadCached? && a.kind == b.kind
        ensures a == b
      {
        var i :| 0 <= i < |ops| && ops[i] == a;
        var j :| 0 <= j < |ops| && ops[j] == b;
        assert i == j;
      }
    }
  }

  /* One function */

  // The position of an op with a given number.
  function PositionOf(ops: seq<Op>, id: nat): (r: nat)
    requires HasId(ops, id)
    ensures r < |ops| && ops[r].id == id
  {
    if Last(ops).id == id then |ops| - 1 else
      assert HasId(Front(ops), id) by {
        var op :| op in ops && op.id == id;
        assert ops == Front(ops) + [Last(ops)];
      }
      PositionOf(Front(ops), id)
  }

  // The mapper once some ops have been cloned.
  ghost predicate Maps(callee: Func, base: nat, operands: seq<Value>, k: nat, mapper: map<Value, Value>)
    requires k <= |callee.ops|
  {
    && (forall v :: v in mapper <==> Defined(callee.args, callee.ops[..k], v))
    && (forall v :: v in mapper ==> mapper[v] == Lifted(base, operands, v))
  }

  function LookupOrDefault(mapper: map<Value, Value>, v: Value): Value {
    if v in mapper then mapper[v] else v
  }

  method MapArguments(callee: Func, base: nat, operands: seq<Value>) returns (mapper: map<Value, Value>)
    requires |operands| == callee.args
    ensures Maps(callee, base, operands, 0, mapper)
  {
    mapper := map[];
    for i := 0 to callee.args
      invariant forall v :: v in mapper <==> v.Arg? && v.index < i
      invariant forall v :: v in mapper ==> mapper[v] == Lifted(base, operands, v)
    {
      mapper := mapper[Arg(i) := operands[i]];
    }
  }

  lemma MappedOperand(callee: Func, base: nat, operands: seq<Value>, k: nat, mapper: map<Value, Value>, v: Value)
    requires Ordered(callee.args, callee.ops) && k < |callee.ops| && v in callee.ops[k].operands
    requires Maps(callee, base, operands, k, mapper)
    ensures v in mapper && mapper[v] == Lifted(base, operands, v)
  {
    hide Ordered, Defined;
    OrderedReads(callee.args, callee.ops, k, v);
  }

  lemma MapsMore(callee: Func, base: nat, operands: seq<Value>, k: nat, mapper: map<Value, Value>, more: map<Value, Value>)
    requires k < |callee.ops| && Maps(callee, base, operands, k, mapper)
    requires forall v :: v in more <==> v in mapper || Defines(callee.ops[k], v)
    requires forall v :: v in more ==> more[v] == Lifted(base, operands, v)
    ensures Maps(callee, base, operands, k + 1, more)
  {
    assert callee.ops[..k + 1] == callee.ops[..k] + [callee.ops[k]];
    forall v: Value
      ensures Defined(callee.args, callee.ops[..k + 1], v) <==> Defined(callee.args, callee.ops[..k], v) || Defines(callee.ops[k], v)
    {
      if v.Res? {
        if x :| x in callee.ops[..k] && Defines(x, v) {
          assert x in callee.ops[..k + 1];
        }
        if Defines(callee.ops[k], v) {
          assert callee.ops[k] in callee.ops[..k + 1];
        }
      }
    }
  }

  // Clones one op of the function through the mapper.
  method CloneOp(callee: Func, k: nat, base: nat, mapper: map<Value, Value>, ghost operands: seq<Value>)
      returns (clone: Op, more: map<Value, Value>)
    requires Ordered(callee.args, callee.ops) && k < |callee.ops| && Maps(callee, base, operands, k, mapper)
    ensures clone == LiftOp(base, operands)(callee.ops[k]) && Maps(callee, base, operands, k + 1, more)
  {
    assert forall v :: v in mapper ==> mapper[v] == Lifted(base, operands, v);
    hide Ordered, Maps;
    var op := callee.ops[k];
    var cloned: seq<Value> := [];
    for i := 0 to |op.operands|
      invariant |cloned| == i
      invariant forall j :: 0 <= j < i ==> cloned[j] == Lifted(base, operands, op.operands[j])
    {
      MappedOperand(callee, base, operands, k, mapper, op.operands[i]);
      cloned := cloned + [LookupOrDefault(mapper, op.operands[i])];
    }
    assert cloned == LiftedAll(base, operands, op.operands);
    clone := op.(id := base + op.id, operands := cloned);
    more := mapper;
    for r := 0 to op.results
      invariant forall v :: v in more <==> v in mapper || (v.Res? && v.op == op.id && v.result < r)
      invariant forall v :: v in more ==> more[v] == Lifted(base, operands, v)
    {
      more := more[Res(op.id, r) := Res(clone.id, r)];
    }
    MapsMore(callee, base, operands, k, mapper, more);
  }

  // Clones the body without its terminator.
  method CloneBody(callee: Func, base: nat, operands: seq<Value>) returns (clones: seq<Op>, mapper: map<Value, Value>)
    requires WellFormed(callee) && |operands| == callee.args
    ensures callee.ops != [] && clones == Clones(base, operands, callee)
    ensures Maps(callee, base, operands, |callee.ops| - 1, mapper)
  {
    hide Ordered, Maps, FromShared, Mapped;
    var n := |callee.ops| - 1;
    var g := LiftOp(base, operands);
    MappedNone(g);
    clones := [];
    mapper := MapArguments(callee, base, operands);
    assert callee.ops[..0] == [];
    for i := 0 to |callee.ops|
      invariant i <= n ==> clones == Mapped(g, callee.ops[..i]) && Maps(callee, base, operands, i, mapper)
      invariant i == n + 1 ==> clones == Mapped(g, callee.ops[..n]) && Maps(callee, base, operands, n, mapper)
    {
      if !callee.ops[i].kind.Terminator? {
        assert i < n;
        var clone;
        clone, mapper := CloneOp(callee, i, base, mapper, operands);
        clones := clones + [clone];
        MappedSnoc(g, callee.ops[..i], callee.ops[i]);
        assert callee.ops[..i + 1] == callee.ops[..i] + [callee.ops[i]];
      } else {
        TerminatorIsLast(callee, i);
      }
    }
  }

  lemma TerminatorIsLast(f: Func, i: nat)
    requires WellFormed(f) && i < |f.ops|
    ensures f.ops[i].kind.Terminator? <==> i == |f.ops| - 1
  {
    if i < |f.ops| - 1 {
      assert Front(f.ops)[i] in Front(f.ops);
    }
  }

  /* Forwarding and erasing the call */

  lemma ForwardNext(call: nat, rets: seq<Value>, j: nat, op: Op)
    requires j < |rets| && forall u :: u in rets ==> !(u.Res? && u.op == call)
    ensures H.ReplaceUses(Res(call, j), rets[j])(ForwardOp(call, rets[..j])(op)) == ForwardOp(call, rets[..j + 1])(op)
  {
    var before := ForwardAll(call, rets[..j], op.operands);
    forall i | 0 <= i < |op.operands|
      ensures H.ReplaceIn(Res(call, j), rets[j], before)[i] == ForwardAll(call, rets[..j + 1], op.operands)[i]
    {
      var v := op.operands[i];
      if v.Res? && v.op == call && v.result < j {
        assert rets[v.result] in rets;
      }
    }
    assert H.ReplaceIn(Res(call, j), rets[j], before) == ForwardAll(call, rets[..j + 1], op.operands);
  }

  lemma ForwardAllNext(call: nat, rets: seq<Value>, j: nat, ops: seq<Op>)
    requires j < |rets| && forall u :: u in rets ==> !(u.Res? && u.op == call)
    ensures Mapped(H.ReplaceUses(Res(call, j), rets[j]), Mapped(ForwardOp(call, rets[..j]), ops)) == Mapped(ForwardOp(call, rets[..j + 1]), ops)
  {
    hide ForwardOp;
    forall i | 0 <= i < |ops|
      ensures H.ReplaceUses(Res(call, j), rets[j])(ForwardOp(call, rets[..j])(ops[i])) == ForwardOp(call, rets[..j + 1])(ops[i])
    {
      ForwardNext(call, rets, j, ops[i]);
    }
  }

  lemma ForwardNone(call: nat, ops: seq<Op>)
    ensures Mapped(ForwardOp(call, []), ops) == ops
  {
    forall i | 0 <= i < |ops|
      ensures ForwardOp(call, [])(ops[i]) == ops[i]
    {
      assert ForwardAll(call, [], ops[i].operands) == ops[i].operands;
    }
  }

  // The mapper knows what every result of the call becomes, and that is never the call itself.
  lemma RetMapped(f: Func, at: nat, callee: Func, base: nat, mapper: map<Value, Value>, i: nat)
    requires CallsIt(f, at, callee) && Above(f.ops, base) && i < |Returned(callee)|
    requires Maps(callee, base, f.ops[at].operands, |callee.ops| - 1, mapper)
    ensures Returned(callee)[i] in mapper && mapper[Returned(callee)[i]] == Rets(base, f.ops[at].operands, callee)[i]
    ensures var u := Rets(base, f.ops[at].operands, callee)[i]; !(u.Res? && u.op == f.ops[at].id)
  {
    hide Ordered, FromShared, Maps, Above, Defined;
    var n := |callee.ops| - 1;
    var v := Returned(callee)[i];
    assert v in callee.ops[n].operands;
    MappedOperand(callee, base, f.ops[at].operands, n, mapper, v);
    var u := Rets(base, f.ops[at].operands, callee)[i];
    assert u in LiftedAll(base, f.ops[at].operands, callee.ops[n].operands);
    CloneReads(f, at, callee, base, n, u);
  }

  // Once its results are forwarded the call is unused.
  lemma CallIsUnused(f: Func, at: nat, callee: Func, base: nat, x: Op)
    requires CallsIt(f, at, callee) && Above(f.ops, base)
    requires x in Mapped(ForwardOp(f.ops[at].id, Rets(base, f.ops[at].operands, callee)),
                         f.ops[..at] + Clones(base, f.ops[at].operands, callee) + f.ops[at..])
    ensures !H.Uses(x, f.ops[at].id)
  {
    hide Ordered, FromShared, Rets, Above, Clones, ForwardAll, EndsInTerminator;
    var call := f.ops[at];
    var rets := Rets(base, call.operands, callee);
    var l := f.ops[..at] + Clones(base, call.operands, callee) + f.ops[at..];
    MappedMembers(ForwardOp(call.id, rets), l, x);
    var q :| q in l && x == ForwardOp(call.id, rets)(q);
    forall u | u in x.operands && u.Res?
      ensures u.op != call.id
    {
      ForwardMembers(call.id, rets, q.operands, u);
      var v :| v in q.operands && u == Forward(call.id, rets, v);
      if q in Clones(base, call.operands, callee) {
        CloneReadsNoCall(f, at, callee, base, q, v);
      } else {
        assert q in f.ops;
        ForwardedIsElsewhere(f, at, callee, base, q, v);
      }
    }
  }

  lemma ForwardedIsElsewhere(f: Func, at: nat, callee: Func, base: nat, q: Op, v: Value)
    requires CallsIt(f, at, callee) && Above(f.ops, base) && q in f.ops && v in q.operands
    ensures var u := Forward(f.ops[at].id, Rets(base, f.ops[at].operands, callee), v); !(u.Res? && u.op == f.ops[at].id)
  {
    hide Ordered, FromShared, Above, EndsInTerminator, LiftedAll;
    var call := f.ops[at];
    OperandDefined(f.args, f.ops, q, v);
    if v.Res? && v.op == call.id {
      var d :| d in f.ops && Defines(d, v);
      assert call in f.ops;
      UniqueOp(f.args, f.ops, d, call);
      var n := |callee.ops| - 1;
      var u := Rets(base, call.operands, callee)[v.result];
      assert u in LiftedAll(base, call.operands, callee.ops[n].operands);
      CloneReads(f, at, callee, base, n, u);
    }
  }

  /* The pass */

  class UndoConstEvalTransform {
    var main: Func
    var consts: seq<Func>

    constructor (p: Program)
      ensures main == p.main && consts == p.consts
    {
      main, consts := p.main, p.consts;
    }

    // `inlineConstEvalFunction`.
    method InlineConstEvalFunction(callee: Func, callOp: nat) returns (outcome: Outcome)
      requires HasId(main.ops, callOp) && CallsIt(main, PositionOf(main.ops, callOp), callee)
      modifies this`main
      ensures outcome == Completed
      ensures main == Inlined(old(main), PositionOf(old(main).ops, callOp), callee, H.FreshId(old(main).ops))
    {
      hide WellFormed, Maps, Clones, Mapped, ForwardOp, Filter, Rets, HasId, NoCalls;
      ghost var f := main;
      var at := PositionOf(main.ops, callOp);
      var call := main.ops[at];
      var base := H.FreshId(main.ops);
      H.FreshIsNew(main.ops);
      var clones, mapper := CloneBody(callee, base, call.operands);
      main := main.(ops := main.ops[..at] + clones + main.ops[at..]);
      ghost var l := main.ops;
      ghost var rets := Rets(base, call.operands, callee);
      var returned := Returned(callee);
      RetsLength(base, call.operands, callee);
      ForwardNone(call.id, l);
      forall u | u in rets
        ensures !(u.Res? && u.op == call.id)
      {
        var i :| 0 <= i < |rets| && rets[i] == u;
        RetMapped(f, at, callee, base, mapper, i);
      }
      for i := 0 to |returned|
        invariant main == f.(ops := Mapped(ForwardOp(call.id, rets[..i]), l))
      {
        RetMapped(f, at, callee, base, mapper, i);
        if returned[i] !in mapper {
          return MissingReturn;
        }
        main := main.(ops := Mapped(H.ReplaceUses(Res(call.id, i), mapper[returned[i]]), main.ops));
        ForwardAllNext(call.id, rets, i, l);
      }
      assert rets[..|returned|] == rets;
      forall x | x in main.ops
        ensures !H.Uses(x, call.id)
      {
        CallIsUnused(f, at, callee, base, x);
      }
      var used := H.HasUse(main.ops, call.id);
      if used {
        return StillUsed;
      }
      main := main.(ops := Filter(Outside({call.id}), main.ops));
      outcome := Completed;
    }

    // `deduplicateSharedOps`.
    method DeduplicateSharedOps() returns (outcome: Outcome)
      requires WellFormed(main)
      modifies this`main
      ensures outcome == Completed && main == Dedup.Deduplicated(old(main))
    {
      hide Ordered, FromShared, EndsInTerminator, Dedup.Dups, Dedup.FirstWith, Dedup.MergeOp, Mapped, Filter, Firsts;
      ghost var f := main;
      var sharedOps: map<(string, Attributes), nat> := map[];
      var opsToErase: seq<nat> := [];
      assert f.ops[..0] == [];
      FirstsNone();
      MergeNothings(f.ops);
      for i := 0 to |main.ops|
        invariant |main.ops| == |f.ops| && Firsts(f.ops[..i], sharedOps)
        invariant main == f.(ops := Mapped(Dedup.MergeOp(Dedup.Dups(f.ops[..i])), f.ops))
        invariant AsSet(opsToErase) == Dedup.Dups(f.ops[..i]).Keys
      {
        var op := main.ops[i];
        MergedOp(f, Dedup.Dups(f.ops[..i]), i);
        assert f.ops[..i + 1] == f.ops[..i] + [f.ops[i]];
        FirstsNext(f.ops[..i], f.ops[i], sharedOps);
        DupsNext(f.ops[..i], f.ops[i], sharedOps);
        if op.kind.Shared? {
          var key := (op.name, op.attrs);
          if key !in sharedOps {
            sharedOps := sharedOps[key := op.id];
          } else {
            ReplaceDuplicate(op, sharedOps[key], f, i, sharedOps);
            opsToErase := opsToErase + [op.id];
          }
        }
      }
      assert f.ops[..|f.ops|] == f.ops;
      outcome := EraseDuplicates(opsToErase, f);
    }

    // Replaces the uses of a duplicate's results by the first instance's.
    method ReplaceDuplicate(op: Op, first: nat, ghost f: Func, ghost i: nat, ghost sharedOps: map<(string, Attributes), nat>)
      requires Ordered(f.args, f.ops) && i < |f.ops| && Firsts(f.ops[..i], sharedOps)
      requires main == f.(ops := Mapped(Dedup.MergeOp(Dedup.Dups(f.ops[..i])), f.ops))
      requires op.id == f.ops[i].id && op.results == f.ops[i].results
      requires (f.ops[i].name, f.ops[i].attrs) in sharedOps && first == sharedOps[(f.ops[i].name, f.ops[i].attrs)]
      modifies this`main
      ensures main == f.(ops := Mapped(Dedup.MergeOp(Dedup.Dups(f.ops[..i])[op.id := first]), f.ops))
    {
      hide Ordered, Firsts, Dedup.Dups, Dedup.FirstWith, Dedup.MergeOp, Mapped, MergePartly;
      ghost var dups := Dedup.Dups(f.ops[..i]);
      NextIsNew(f, i, sharedOps);
      MergeBegins(dups, op.id, first, f.ops);
      for r := 0 to op.results
        invariant main == f.(ops := Mapped(MergePartly(dups, op.id, first, r), f.ops))
      {
        main := main.(ops := Mapped(H.ReplaceUses(Res(op.id, r), Res(first, r)), main.ops));
        MergeSteps(dups, op.id, first, r, f.ops);
      }
      assert f.ops[i] in f.ops;
      MergeEnds(f, f.ops[i], dups, first);
    }

    // Erases the duplicates; erasing an op in use fails.
    method EraseDuplicates(opsToErase: seq<nat>, ghost f: Func) returns (outcome: Outcome)
      requires Ordered(f.args, f.ops) && AsSet(opsToErase) == Dedup.Dups(f.ops).Keys
      requires main == f.(ops := Mapped(Dedup.MergeOp(Dedup.Dups(f.ops)), f.ops))
      modifies this`main
      ensures outcome == Completed && main == Dedup.Deduplicated(f)
    {
      hide Ordered, Dedup.Dups, Dedup.MergeOp, Mapped, Filter;
      ghost var merged := main.ops;
      assert AsSet(opsToErase[..0]) == {};
      FilterAll(Outside({}), merged);
      for j := 0 to |opsToErase|
        invariant main == f.(ops := Filter(Outside(AsSet(opsToErase[..j])), merged))
      {
        var id := opsToErase[j];
        var used := H.HasUse(main.ops, id);
        assert id in AsSet(opsToErase);
        forall x | x in main.ops
          ensures !H.Uses(x, id)
        {
          FilterMembers(Outside(AsSet(opsToErase[..j])), merged, x);
          DupIsUnused(f, x, id);
        }
        if used {
          return StillUsed;
        }
        H.FilterTwice({id}, AsSet(opsToErase[..j]), merged);
        assert AsSet(opsToErase[..j + 1]) == {id} + AsSet(opsToErase[..j]);
        main := main.(ops := Filter(Outside({id}), main.ops));
      }
      assert opsToErase[..|opsToErase|] == opsToErase;
      outcome := Completed;
    }

    // Finds the call of each function; a second call fails.
    method CollectCalls() returns (outcome: Outcome, funcToCall: map<nat, nat>)
      requires WellFormed(main)
      ensures outcome.Completed? ==> FoundCalls(main.ops, |consts|, funcToCall) && SingleCalls(main.ops)
      ensures outcome.NoSuchFunction? ==> exists op :: op in main.ops && op.kind.LoadCached? && op.kind.callee >= |consts|
      ensures outcome.UsedTwice? ==> !SingleCalls(main.ops)
      ensures outcome in {Completed, NoSuchFunction, UsedTwice}
    {
      hide WellFormed;
      funcToCall := map[];
      for i := 0 to |main.ops|
        invariant FoundCalls(main.ops[..i], |consts|, funcToCall) && SingleCalls(main.ops[..i])
      {
        var op := main.ops[i];
        assert op in main.ops && main.ops[..i + 1] == main.ops[..i] + [op];
        if op.kind.LoadCached? {
          if op.kind.callee >= |consts| {
            return NoSuchFunction, funcToCall;
          }
          if op.kind.callee in funcToCall {
            CalledTwice(main, i, |consts|, funcToCall);
            return UsedTwice, funcToCall;
          }
          FoundMore(main.ops[..i], op, |consts|, funcToCall);
          funcToCall := funcToCall[op.kind.callee := op.id];
        }
      }
      assert main.ops[..|main.ops|] == main.ops;
      outcome := Completed;
    }

    // `undoConstEvalImpl`: fails exactly when a function is called twice or never; otherwise every
    // function is back in place of its call and the shared ops are merged.
    method UndoConstEvalImpl(ghost arity: (string, Attributes) -> nat) returns (outcome: Outcome)
      requires Coherent(Program(main, consts)) && ProgramFollowsArity(Program(main, consts), arity)
      modifies this
      ensures outcome.Completed? <==> OneCallEach(old(main).ops, 0, |old(consts)|)
      ensures outcome.Completed? ==> Program(main, consts) == Undone(Program(old(main), old(consts)))
    {
      hide WellFormed, FoundCalls, SingleCalls, OneCallEach, InlinedAll, Dedup.Deduplicated, Matches, CallsIt, Leaf, Ready, Inlined, FollowsArity, IsCalled;
      ghost var p := Program(main, consts);
      var funcToCall;
      outcome, funcToCall := CollectCalls();
      CallsDecide(p, outcome, funcToCall);
      if outcome != Completed {
        return;
      }
      ReadyFirst(p, funcToCall, arity);
      InlinedNone(p);
      var parentFuncs := 0;
      for c := 0 to |consts|
        invariant consts == p.consts && parentFuncs == c
        invariant forall d :: 0 <= d < c ==> d in funcToCall
        invariant main == InlinedAll(p, c) && Ready(main, consts, funcToCall, c, arity)
      {
        if c !in funcToCall {
          return NeverCalled;
        }
        assert consts[c] in consts;
        ReadyCall(main, consts, funcToCall, c, arity);
        ReadyStep(main, consts, funcToCall, c, arity, CallPosition(main.ops, c));
        CalleeHasOps(main, CallPosition(main.ops, c), consts[c]);
        InlinedNext(p, c);
        var callOp := funcToCall[c];
        parentFuncs := parentFuncs + 1;
        outcome := InlineConstEvalFunction(consts[c], callOp);
      }
      ghost var inlined := main;
      ReadyFacts(main, consts, funcToCall, |consts|, arity);
      for i := 0 to parentFuncs
        invariant consts == p.consts && WellFormed(main)
        invariant main == if i == 0 then inlined else Dedup.Deduplicated(inlined)
      {
        Dedup.DeduplicatedWellFormed(inlined);
        Dedup.DeduplicationIsIdempotent(inlined);
        outcome := DeduplicateSharedOps();
      }
      consts := [];
      outcome := Completed;
    }
  }

  lemma RetsLength(base: nat, operands: seq<Value>, callee: Func)
    requires callee.ops != []
    ensures |Rets(base, operands, callee)| == |Returned(callee)|
  {}

  /* Deduplication */

  // Uses of the first r results of a duplicate have been replaced, on top of the earlier ones.
  function MergePartly(dups: map<nat, nat>, id: nat, first: nat, r: nat): Op -> Op {
    (op: Op) => op.(operands := seq(|op.operands|, (i: nat) requires i < |op.operands| => PartlyMerged(dups, id, first, r, op.operands[i])))
  }

  function PartlyMerged(dups: map<nat, nat>, id: nat, first: nat, r: nat, v: Value): Value {
    if v.Res? && v.op == id && v.result < r then Res(first, v.result) else Dedup.Merge(dups, v)
  }

  lemma MergeStep(dups: map<nat, nat>, id: nat, first: nat, r: nat, op: Op)
    requires id !in dups && id !in dups.Values && first != id
    ensures H.ReplaceUses(Res(id, r), Res(first, r))(MergePartly(dups, id, first, r)(op)) == MergePartly(dups, id, first, r + 1)(op)
  {
    var before := MergePartly(dups, id, first, r)(op).operands;
    assert H.ReplaceIn(Res(id, r), Res(first, r), before) == MergePartly(dups, id, first, r + 1)(op).operands;
  }

  lemma MergeSteps(dups: map<nat, nat>, id: nat, first: nat, r: nat, ops: seq<Op>)
    requires id !in dups && id !in dups.Values && first != id
    ensures Mapped(H.ReplaceUses(Res(id, r), Res(first, r)), Mapped(MergePartly(dups, id, first, r), ops))
            == Mapped(MergePartly(dups, id, first, r + 1), ops)
  {
    hide MergePartly;
    forall i | 0 <= i < |ops|
      ensures H.ReplaceUses(Res(id, r), Res(first, r))(MergePartly(dups, id, first, r)(ops[i])) == MergePartly(dups, id, first, r + 1)(ops[i])
    {
      MergeStep(dups, id, first, r, ops[i]);
    }
  }

  lemma MergeBegins(dups: map<nat, nat>, id: nat, first: nat, ops: seq<Op>)
    ensures Mapped(MergePartly(dups, id, first, 0), ops) == Mapped(Dedup.MergeOp(dups), ops)
  {
    forall i | 0 <= i < |ops|
      ensures MergePartly(dups, id, first, 0)(ops[i]) == Dedup.MergeOp(dups)(ops[i])
    {
      assert MergePartly(dups, id, first, 0)(ops[i]).operands == Dedup.MergeAll(dups, ops[i].operands);
    }
  }

  lemma MergeEnds(f: Func, dup: Op, dups: map<nat, nat>, first: nat)
    requires Ordered(f.args, f.ops) && dup in f.ops && dup.id !in dups
    ensures Mapped(MergePartly(dups, dup.id, first, dup.results), f.ops) == Mapped(Dedup.MergeOp(dups[dup.id := first]), f.ops)
  {
    forall i | 0 <= i < |f.ops|
      ensures MergePartly(dups, dup.id, first, dup.results)(f.ops[i]) == Dedup.MergeOp(dups[dup.id := first])(f.ops[i])
    {
      MergeEndsAt(f, dup, dups, first, f.ops[i]);
    }
  }

  lemma MergeEndsAt(f: Func, dup: Op, dups: map<nat, nat>, first: nat, op: Op)
    requires Ordered(f.args, f.ops) && dup in f.ops && dup.id !in dups && op in f.ops
    ensures MergePartly(dups, dup.id, first, dup.results)(op) == Dedup.MergeOp(dups[dup.id := first])(op)
  {
    hide Ordered;
    var partly := MergePartly(dups, dup.id, first, dup.results)(op).operands;
    forall i | 0 <= i < |op.operands|
      ensures partly[i] == Dedup.Merge(dups[dup.id := first], op.operands[i])
    {
      var v := op.operands[i];
      OperandDefined(f.args, f.ops, op, v);
      if v.Res? && v.op == dup.id {
        var q :| q in f.ops && Defines(q, v);
        UniqueOp(f.args, f.ops, q, dup);
      }
    }
    assert partly == Dedup.MergeAll(dups[dup.id := first], op.operands);
  }

  // The table of first instances after a prefix.
  ghost predicate Firsts(ops: seq<Op>, sharedOps: map<(string, Attributes), nat>) {
    forall name: string, attrs: Attributes ::
      Dedup.FirstWith(ops, name, attrs) == if (name, attrs) in sharedOps then Some(sharedOps[(name, attrs)]) else None
  }

  lemma FirstsNext(ops: seq<Op>, op: Op, sharedOps: map<(string, Attributes), nat>)
    requires Firsts(ops, sharedOps)
    ensures !op.kind.Shared? || (op.name, op.attrs) in sharedOps ==> Firsts(ops + [op], sharedOps)
    ensures op.kind.Shared? && (op.name, op.attrs) !in sharedOps ==> Firsts(ops + [op], sharedOps[(op.name, op.attrs) := op.id])
  {
    assert Front(ops + [op]) == ops;
    assert Dedup.FirstWith(ops, op.name, op.attrs) == if (op.name, op.attrs) in sharedOps then Some(sharedOps[(op.name, op.attrs)]) else None;
    forall name: string, attrs: Attributes
      ensures Dedup.FirstWith(ops + [op], name, attrs)
              == if Dedup.FirstWith(ops, name, attrs).Some? then Dedup.FirstWith(ops, name, attrs)
                 else if op.kind.Shared? && op.name == name && op.attrs == attrs then Some(op.id) else None
    {
    }
  }

  lemma DupsNext(ops: seq<Op>, op: Op, sharedOps: map<(string, Attributes), nat>)
    requires Firsts(ops, sharedOps)
    ensures Dedup.Dups(ops + [op]) == if op.kind.Shared? && (op.name, op.attrs) in sharedOps
      then Dedup.Dups(ops)[op.id := sharedOps[(op.name, op.attrs)]] else Dedup.Dups(ops)
  {
    assert Front(ops + [op]) == ops;
    assert Dedup.FirstWith(ops, op.name, op.attrs) == if (op.name, op.attrs) in sharedOps then Some(sharedOps[(op.name, op.attrs)]) else None;
  }

  // The number of the next op is none of those the table of duplicates mentions.
  lemma NextIsNew(f: Func, i: nat, sharedOps: map<(string, Attributes), nat>)
    requires Ordered(f.args, f.ops) && i < |f.ops| && Firsts(f.ops[..i], sharedOps)
    ensures f.ops[i].id !in Dedup.Dups(f.ops[..i]) && f.ops[i].id !in Dedup.Dups(f.ops[..i]).Values
    ensures (f.ops[i].name, f.ops[i].attrs) in sharedOps ==> sharedOps[(f.ops[i].name, f.ops[i].attrs)] != f.ops[i].id
  {
    hide Ordered, Dedup.Dups, Dedup.FirstWith;
    var ops, op := f.ops[..i], f.ops[i];
    OrderedPrefix(f.args, f.ops, i);
    forall id | id in Dedup.Dups(ops)
      ensures id != op.id && Dedup.Dups(ops)[id] != op.id
    {
      var dup, first := Dedup.DupIs(f.args, ops, id);
      IdsDiffer(f, i, dup);
      IdsDiffer(f, i, first);
    }
    if (op.name, op.attrs) in sharedOps {
      assert Dedup.FirstWith(ops, op.name, op.attrs).Some?;
      var first := Dedup.FirstIs(ops, op.name, op.attrs);
      IdsDiffer(f, i, first);
    }
  }

  lemma DupIsUnused(f: Func, x: Op, id: nat)
    requires Ordered(f.args, f.ops) && id in Dedup.Dups(f.ops) && x in Mapped(Dedup.MergeOp(Dedup.Dups(f.ops)), f.ops)
    ensures !H.Uses(x, id)
  {
    hide Ordered, Dedup.Dups, Dedup.FirstWith, Mapped, Dedup.MergeAll;
    var dups := Dedup.Dups(f.ops);
    MappedMembers(Dedup.MergeOp(dups), f.ops, x);
    var op :| op in f.ops && x == Dedup.MergeOp(dups)(op);
    forall u | u in x.operands && u.Res?
      ensures u.op != id
    {
      Dedup.MergeMembers(dups, op.operands, u);
      var v :| v in op.operands && u == Dedup.Merge(dups, v);
      if v.Res? && v.op in dups {
        var dup, first := Dedup.DupIs(f.args, f.ops, v.op);
        Dedup.FirstIsNoDup(f.args, f.ops, first);
      }
    }
  }

  lemma MergeNothings(ops: seq<Op>)
    ensures Mapped(Dedup.MergeOp(map[]), ops) == ops
  {
    forall i | 0 <= i < |ops|
      ensures Dedup.MergeOp(map[])(ops[i]) == ops[i]
    {
      Dedup.MergeNothing(ops[i]);
    }
  }

  function AsSet(s: seq<nat>): set<nat> {
    set x | x in s
  }

  lemma FirstsNone()
    ensures Firsts([], map[]) && Dedup.Dups([]) == map[]
  {}

  lemma MergedOp(f: Func, dups: map<nat, nat>, i: nat)
    requires i < |f.ops|
    ensures var op := Mapped(Dedup.MergeOp(dups), f.ops)[i];
      op.id == f.ops[i].id && op.kind == f.ops[i].kind && op.name == f.ops[i].name && op.attrs == f.ops[i].attrs && op.results == f.ops[i].results
  {}

  /* All functions */

  ghost predicate SingleCalls(ops: seq<Op>) {
    forall a, b :: a in ops && b in ops && a.kind.LoadCached? && a.kind == b.kind ==> a == b
  }

  // The table of calls: one entry for each function called, with the number of its call.
  ghost predicate FoundCalls(ops: seq<Op>, n: nat, funcToCall: map<nat, nat>) {
    && (forall d :: d in funcToCall ==> d < n && IsCalled(ops, d))
    && (forall op :: op in ops && op.kind.LoadCached? ==>
          op.kind.callee < n && op.kind.callee in funcToCall && funcToCall[op.kind.callee] == op.id)
  }

  lemma CalledTwice(f: Func, i: nat, n: nat, funcToCall: map<nat, nat>)
    requires WellFormed(f) && i < |f.ops| && f.ops[i].kind.LoadCached? && f.ops[i].kind.callee in funcToCall
    requires FoundCalls(f.ops[..i], n, funcToCall)
    ensures !SingleCalls(f.ops)
  {
    var a :| a in f.ops[..i] && Calls(a, f.ops[i].kind.callee);
    IdsDiffer(f, i, a);
    assert a in f.ops && f.ops[i] in f.ops;
  }

  function CallPosition(ops: seq<Op>, c: nat): (r: nat)
    requires IsCalled(ops, c)
    ensures r < |ops| && Calls(ops[r], c)
  {
    if Calls(Last(ops), c) then |ops| - 1 else
      assert IsCalled(Front(ops), c) by {
        var op :| op in ops && Calls(op, c);
        assert ops == Front(ops) + [Last(ops)];
      }
      CallPosition(Front(ops), c)
  }

  // The caller once the first n functions are back in place.
  function InlinedAll(p: Program, n: nat): Func
    requires n <= |p.consts|
  {
    if n == 0 then p.main else
      var g := InlinedAll(p, n - 1);
      if IsCalled(g.ops, n - 1) && p.consts[n - 1].ops != []
      then Inlined(g, CallPosition(g.ops, n - 1), p.consts[n - 1], H.FreshId(g.ops)) else g
  }

  // The program after the pass.
  function Undone(p: Program): Program {
    if p.consts == [] then p else Program(Dedup.Deduplicated(InlinedAll(p, |p.consts|)), [])
  }

  // The assumption of the source on shared ops: the number of results goes by name and attributes.
  ghost predicate FollowsArity(ops: seq<Op>, arity: (string, Attributes) -> nat) {
    forall op :: op in ops && op.kind.Shared? ==> op.results == arity(op.name, op.attrs)
  }

  ghost predicate ProgramFollowsArity(p: Program, arity: (string, Attributes) -> nat) {
    FollowsArity(p.main.ops, arity) && forall k :: k in p.consts ==> FollowsArity(k.ops, arity)
  }

  lemma ArityGivesResults(ops: seq<Op>, arity: (string, Attributes) -> nat)
    requires FollowsArity(ops, arity)
    ensures Dedup.SameResults(ops)
  {}

  // The state before the c-th function is inlined.
  ghost predicate Ready(g: Func, consts: seq<Func>, funcToCall: map<nat, nat>, c: nat, arity: (string, Attributes) -> nat) {
    && WellFormed(g) && FollowsArity(g.ops, arity)
    && (forall op :: op in g.ops ==> Matches(op, consts))
    && (forall d :: d in funcToCall && c <= d ==> IsCalled(g.ops, d))
    && (forall op :: op in g.ops && op.kind.LoadCached? ==>
          c <= op.kind.callee && op.kind.callee in funcToCall && funcToCall[op.kind.callee] == op.id)
  }

  lemma ReadyFirst(p: Program, funcToCall: map<nat, nat>, arity: (string, Attributes) -> nat)
    requires Coherent(p) && ProgramFollowsArity(p, arity) && FoundCalls(p.main.ops, |p.consts|, funcToCall)
    ensures Ready(p.main, p.consts, funcToCall, 0, arity)
  {
    hide WellFormed, Matches, IsCalled;
  }

  // The number in the table is that of the one op that calls the function.
  lemma ReadyCall(g: Func, consts: seq<Func>, funcToCall: map<nat, nat>, c: nat, arity: (string, Attributes) -> nat)
    requires Ready(g, consts, funcToCall, c, arity) && c in funcToCall && c < |consts| && Leaf(consts[c])
    ensures HasId(g.ops, funcToCall[c]) && IsCalled(g.ops, c)
    ensures PositionOf(g.ops, funcToCall[c]) == CallPosition(g.ops, c)
    ensures CallsIt(g, CallPosition(g.ops, c), consts[c]) && Calls(g.ops[CallPosition(g.ops, c)], c)
  {
    hide Ordered, FromShared, EndsInTerminator, NoCalls;
    var at := CallPosition(g.ops, c);
    assert g.ops[at] in g.ops && g.ops[at].id == funcToCall[c];
    H.OrderedIsDistinct(g.args, g.ops);
  }

  lemma ReadyMember(g: Func, consts: seq<Func>, funcToCall: map<nat, nat>, c: nat, arity: (string, Attributes) -> nat, at: nat, x: Op)
    requires Ready(g, consts, funcToCall, c, arity) && c < |consts| && Leaf(consts[c]) && FollowsArity(consts[c].ops, arity)
    requires CallsIt(g, at, consts[c]) && Calls(g.ops[at], c) && Above(g.ops, H.FreshId(g.ops))
    requires x in Inlined(g, at, consts[c], H.FreshId(g.ops)).ops
    ensures Matches(x, consts) && (x.kind.Shared? ==> x.results == arity(x.name, x.attrs))
    ensures x.kind.LoadCached? ==> c + 1 <= x.kind.callee && x.kind.callee in funcToCall && funcToCall[x.kind.callee] == x.id
  {
    hide WellFormed, Inlined, Clones, Rets;
    var base := H.FreshId(g.ops);
    InlinedMembers(g, at, consts[c], base, x);
    assert g.ops[at] in g.ops;
    if x in Clones(base, g.ops[at].operands, consts[c]) {
      var op := CloneSource(consts[c], base, g.ops[at].operands, x);
    }
  }

  lemma ReadyStays(g: Func, consts: seq<Func>, funcToCall: map<nat, nat>, c: nat, arity: (string, Attributes) -> nat, at: nat, d: nat)
    requires Ready(g, consts, funcToCall, c, arity) && c < |consts|
    requires CallsIt(g, at, consts[c]) && Calls(g.ops[at], c) && Above(g.ops, H.FreshId(g.ops))
    requires d in funcToCall && c < d
    ensures IsCalled(Inlined(g, at, consts[c], H.FreshId(g.ops)).ops, d)
  {
    hide WellFormed, Inlined, Clones, Rets, Matches;
    var base := H.FreshId(g.ops);
    var op :| op in g.ops && Calls(op, d);
    assert g.ops[at] in g.ops;
    CallsApart(g, at, op);
    var x := ForwardOp(g.ops[at].id, Rets(base, g.ops[at].operands, consts[c]))(op);
    InlinedMembers(g, at, consts[c], base, x);
    assert Calls(x, d);
  }

  lemma CallsApart(g: Func, at: nat, op: Op)
    requires WellFormed(g) && at < |g.ops| && op in g.ops && op.kind != g.ops[at].kind
    ensures op.id != g.ops[at].id
  {
    hide Ordered, FromShared, EndsInTerminator;
    assert g.ops[at] in g.ops;
    if op.id == g.ops[at].id {
      UniqueOp(g.args, g.ops, op, g.ops[at]);
    }
  }

  lemma ReadyStep(g: Func, consts: seq<Func>, funcToCall: map<nat, nat>, c: nat, arity: (string, Attributes) -> nat, at: nat)
    requires Ready(g, consts, funcToCall, c, arity) && c < |consts| && Leaf(consts[c]) && FollowsArity(consts[c].ops, arity)
    requires CallsIt(g, at, consts[c]) && Calls(g.ops[at], c)
    ensures Ready(Inlined(g, at, consts[c], H.FreshId(g.ops)), consts, funcToCall, c + 1, arity)
    ensures Above(g.ops, H.FreshId(g.ops))
  {
    hide WellFormed, Inlined, Matches, Leaf, CallsIt, IsCalled;
    var base := H.FreshId(g.ops);
    H.FreshIsNew(g.ops);
    InlinedWellFormed(g, at, consts[c], base);
    CalleeHasOps(g, at, consts[c]);
    var after := Inlined(g, at, consts[c], base);
    forall x | x in after.ops
      ensures Matches(x, consts) && (x.kind.Shared? ==> x.results == arity(x.name, x.attrs))
      ensures x.kind.LoadCached? ==> c + 1 <= x.kind.callee && x.kind.callee in funcToCall && funcToCall[x.kind.callee] == x.id
    {
      ReadyMember(g, consts, funcToCall, c, arity, at, x);
    }
    forall d | d in funcToCall && c + 1 <= d
      ensures IsCalled(after.ops, d)
    {
      ReadyStays(g, consts, funcToCall, c, arity, at, d);
    }
  }

  lemma FoundMore(ops: seq<Op>, op: Op, n: nat, funcToCall: map<nat, nat>)
    requires FoundCalls(ops, n, funcToCall) && SingleCalls(ops)
    requires op.kind.LoadCached? && op.kind.callee < n && op.kind.callee !in funcToCall
    ensures FoundCalls(ops + [op], n, funcToCall[op.kind.callee := op.id]) && SingleCalls(ops + [op])
  {
    assert op in ops + [op] && Calls(op, op.kind.callee);
    forall d | d in funcToCall
      ensures IsCalled(ops + [op], d)
    {
      var x :| x in ops && Calls(x, d);
      assert x in ops + [op];
    }
  }

  // What the table says about the calls of the program.
  lemma CallsDecide(p: Program, outcome: Outcome, funcToCall: map<nat, nat>)
    requires Coherent(p) && outcome in {Completed, NoSuchFunction, UsedTwice}
    requires outcome.Completed? ==> FoundCalls(p.main.ops, |p.consts|, funcToCall) && SingleCalls(p.main.ops)
    requires outcome.NoSuchFunction? ==> exists op :: op in p.main.ops && op.kind.LoadCached? && op.kind.callee >= |p.consts|
    requires outcome.UsedTwice? ==> !SingleCalls(p.main.ops)
    ensures outcome.Completed? ==>
      (OneCallEach(p.main.ops, 0, |p.consts|) <==> forall d :: 0 <= d < |p.consts| ==> d in funcToCall)
    ensures !outcome.Completed? ==> !OneCallEach(p.main.ops, 0, |p.consts|)
  {
    hide WellFormed;
    if outcome.Completed? {
      forall d | 0 <= d < |p.consts|
        ensures IsCalled(p.main.ops, d) <==> d in funcToCall
      {
        if IsCalled(p.main.ops, d) {
          var op :| op in p.main.ops && Calls(op, d);
        }
      }
    }
  }

  lemma InlinedNone(p: Program)
    ensures InlinedAll(p, 0) == p.main
  {}

  lemma InlinedNext(p: Program, c: nat)
    requires c < |p.consts| && IsCalled(InlinedAll(p, c).ops, c) && p.consts[c].ops != []
    ensures var g := InlinedAll(p, c); InlinedAll(p, c + 1) == Inlined(g, CallPosition(g.ops, c), p.consts[c], H.FreshId(g.ops))
  {
    hide Inlined;
  }

  lemma ReadyFacts(g: Func, consts: seq<Func>, funcToCall: map<nat, nat>, c: nat, arity: (string, Attributes) -> nat)
    requires Ready(g, consts, funcToCall, c, arity)
    ensures WellFormed(g) && Dedup.SameResults(g.ops)
    ensures c >= |consts| ==> NoCalls(g.ops)
  {
    hide WellFormed;
    ArityGivesResults(g.ops, arity);
  }

  /* The pass as a whole */

  lemma TableOf(p: Program) returns (funcToCall: map<nat, nat>)
    requires OneCallEach(p.main.ops, 0, |p.consts|)
    ensures FoundCalls(p.main.ops, |p.consts|, funcToCall) && forall d :: 0 <= d < |p.consts| ==> d in funcToCall
  {
    funcToCall := map d: nat | d < |p.consts| && IsCalled(p.main.ops, d) :: p.main.ops[CallPosition(p.main.ops, d)].id;
    forall op | op in p.main.ops && op.kind.LoadCached?
      ensures op.kind.callee in funcToCall && funcToCall[op.kind.callee] == op.id
    {
      assert Calls(op, op.kind.callee);
      assert p.main.ops[CallPosition(p.main.ops, op.kind.callee)] in p.main.ops;
    }
  }

  lemma {:induction false} ReadyAt(p: Program, funcToCall: map<nat, nat>, arity: (string, Attributes) -> nat, n: nat)
    requires Coherent(p) && ProgramFollowsArity(p, arity) && FoundCalls(p.main.ops, |p.consts|, funcToCall)
    requires n <= |p.consts| && forall d :: 0 <= d < |p.consts| ==> d in funcToCall
    ensures Ready(InlinedAll(p, n), p.consts, funcToCall, n, arity)
    decreases n
  {
    hide WellFormed, FoundCalls, Ready, Inlined, CallsIt, FollowsArity, InlinedAll, Matches, IsCalled;
    if n == 0 {
      ReadyFirst(p, funcToCall, arity);
      InlinedNone(p);
    } else {
      var c := n - 1;
      ReadyAt(p, funcToCall, arity, c);
      var g := InlinedAll(p, c);
      assert p.consts[c] in p.consts;
      ReadyCall(g, p.consts, funcToCall, c, arity);
      ReadyStep(g, p.consts, funcToCall, c, arity, CallPosition(g.ops, c));
      InlinedNext(p, c);
    }
  }

  lemma {:induction false} InlinedAllKeepsMeaning(interp: Interp, p: Program, funcToCall: map<nat, nat>, arity: (string, Attributes) -> nat, n: nat, args: seq<int>)
    requires Coherent(p) && ProgramFollowsArity(p, arity) && FoundCalls(p.main.ops, |p.consts|, funcToCall)
    requires n <= |p.consts| && (forall d :: 0 <= d < |p.consts| ==> d in funcToCall) && |args| == p.main.args
    ensures WellFormed(InlinedAll(p, n)) && InlinedAll(p, n).args == p.main.args && InlinedAll(p, n).ops != []
    ensures RunProgram(interp, Program(InlinedAll(p, n), p.consts), args) == RunProgram(interp, p, args)
    decreases n
  {
    hide Ordered, FromShared, FoundCalls, Ready, Inlined, CallsIt, FollowsArity, InlinedAll, Matches, IsCalled, RunProgram;
    if n == 0 {
      InlinedNone(p);
    } else {
      var c := n - 1;
      InlinedAllKeepsMeaning(interp, p, funcToCall, arity, c, args);
      ReadyAt(p, funcToCall, arity, c);
      var g := InlinedAll(p, c);
      assert p.consts[c] in p.consts;
      ReadyCall(g, p.consts, funcToCall, c, arity);
      ReadyStep(g, p.consts, funcToCall, c, arity, CallPosition(g.ops, c));
      InlinedNext(p, c);
      var at := CallPosition(g.ops, c);
      InliningKeepsMeaning(interp, Program(g, p.consts), at, p.consts[c], H.FreshId(g.ops), args);
      InlinedArgs(g, at, p.consts[c], H.FreshId(g.ops));
    }
  }

  lemma InlinedArgs(g: Func, at: nat, callee: Func, base: nat)
    requires at < |g.ops| && callee.ops != []
    ensures Inlined(g, at, callee, base).args == g.args
    ensures Inlined(g, at, callee, base).constArgs == g.constArgs
  {}

  lemma {:induction false} InlinedAllArgs(p: Program, n: nat)
    requires n <= |p.consts|
    ensures InlinedAll(p, n).args == p.main.args && InlinedAll(p, n).constArgs == p.main.constArgs
  {
    hide Inlined;
    if n > 0 {
      var g := InlinedAll(p, n - 1);
      InlinedAllArgs(p, n - 1);
      if IsCalled(g.ops, n - 1) && p.consts[n - 1].ops != [] {
        InlinedArgs(g, CallPosition(g.ops, n - 1), p.consts[n - 1], H.FreshId(g.ops));
      }
    }
  }

  // A body without calls does not depend on what calls return.
  lemma NoCallsRun(interp: Interp, calls: Calls, other: Calls, f: Func, args: seq<int>)
    requires WellFormed(f) && NoCalls(f.ops) && |args| == f.args
    ensures Run(interp, calls, f, args) == Run(interp, other, f, args)
  {
    hide Eval, Ordered, FromShared;
    var env := Eval(interp, calls, f.ops, ArgEnv(args));
    EvalSolves(interp, calls, f.args, f.ops, ArgEnv(args));
    forall op, r: nat | op in f.ops && r < op.results
      ensures env(Res(op.id, r)) == ResultOf(interp, other, op, env, r)
    {
      assert env(Res(op.id, r)) == ResultOf(interp, calls, op, env, r);
    }
    RunBySolution(interp, other, f, env, args);
  }

  lemma DeduplicatedNoCalls(f: Func)
    requires NoCalls(f.ops)
    ensures NoCalls(Dedup.Deduplicated(f).ops) && Dedup.Deduplicated(f).args == f.args
  {
    hide Dedup.Dups, Dedup.MergeAll;
    forall x | x in Dedup.Deduplicated(f).ops
      ensures !x.kind.LoadCached?
    {
      Dedup.DeduplicatedMembers(f, x);
    }
  }

  // Undoing changes no result, and leaves a well-formed function without calls that has one shared
  // op for each name and attributes.
  lemma UndoKeepsMeaning(interp: Interp, p: Program, arity: (string, Attributes) -> nat, args: seq<int>)
    requires Coherent(p) && ProgramFollowsArity(p, arity) && OneCallEach(p.main.ops, 0, |p.consts|)
    requires |args| == p.main.args
    ensures WellFormed(Undone(p).main) && NoCalls(Undone(p).main.ops) && Undone(p).consts == []
    ensures p.consts != [] ==> Dedup.OnePerKey(Undone(p).main.ops)
    ensures RunProgram(interp, Undone(p), args) == RunProgram(interp, p, args)
  {
    hide Ordered, FromShared, FoundCalls, Ready, FollowsArity, InlinedAll, Matches, IsCalled, Dedup.Deduplicated, Run;
    var funcToCall := TableOf(p);
    var n := |p.consts|;
    InlinedAllKeepsMeaning(interp, p, funcToCall, arity, n, args);
    ReadyAt(p, funcToCall, arity, n);
    ReadyFacts(InlinedAll(p, n), p.consts, funcToCall, n, arity);
    if p.consts == [] {
      InlinedNone(p);
    } else {
      var g := InlinedAll(p, n);
      Dedup.DeduplicationKeepsMeaning(interp, Program(g, p.consts), args);
      Dedup.DeduplicatedOnePerKey(g);
      DeduplicatedNoCalls(g);
      NoCallsRun(interp, CallsTo(interp, p.consts), CallsTo(interp, []), Dedup.Deduplicated(g), args);
    }
  }
}
