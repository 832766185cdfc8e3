/**
 * The transform of `lib/Transforms/ConstEvalHoist.cpp`: each subgraph of the analysis is cloned
 * into a new function and replaced by a cached call at the top of the body. The assertions of the
 * source are outcomes, and no run has one.
 */
module ConstEvalHoist {
  import opened IR
  import opened Permutations
  import opened Outlining
  import opened ConstEvalSpec
  import opened ConstEvalAnalysis
  import opened HoistSpec
  import opened ConstEvalMeaning

  datatype Outcome = Completed | OutOfScope | MissingOutput | BadInsertionPoint | StillUsed

  function FreshId(ops: seq<Op>): nat {
    if ops == [] then 0
    else if Last(ops).id < FreshId(Front(ops)) then FreshId(Front(ops)) else Last(ops).id + 1
  }

  lemma {:induction false} FreshIsNew(ops: seq<Op>)
    ensures forall op :: op in ops ==> op.id < FreshId(ops)
  {
    if ops != [] {
      FreshIsNew(Front(ops));
      assert ops == Front(ops) + [Last(ops)];
    }
  }

  // Whether a use of the value is outside the group.
  method HasOutsideUse(ops: seq<Op>, opSet: set<nat>, v: Value) returns (r: bool)
    ensures r <==> UsedOutside(ops, opSet, v)
  {
    for i := 0 to |ops|
      invariant !UsedOutside(ops[..i], opSet, v)
    {
      if v in ops[i].operands && ops[i].id !in opSet {
        assert ops[i] in ops;
        return true;
      }
      assert ops[..i + 1] == ops[..i] + [ops[i]];
    }
    assert ops[..|ops|] == ops;
    r := false;
  }

  ghost predicate DistinctIds(ops: seq<Op>) {
    forall i, j :: 0 <= i < j < |ops| ==> ops[i].id != ops[j].id
  }

  lemma {:induction false} OrderedIsDistinct(args: nat, ops: seq<Op>)
    requires Ordered(args, ops)
    ensures DistinctIds(ops)
  {
    if ops != [] {
      OrderedIsDistinct(args, Front(ops));
      forall i | 0 <= i < |ops| - 1
        ensures ops[i].id != Last(ops).id
      {
        assert Front(ops)[i] in Front(ops);
      }
      assert forall i :: 0 <= i < |ops| - 1 ==> ops[i] == Front(ops)[i];
    }
  }

  // The results that leave a prefix of the group, with those of the next op up to a position.
  ghost predicate BoundaryUpTo(body: seq<Op>, group: set<nat>, ops: seq<Op>, n: nat, m: nat, outputs: seq<Value>)
    requires n <= |ops|
  {
    && Distinct(outputs)
    && forall v: Value :: v in outputs <==>
      && v.Res? && UsedOutside(body, group, v)
      && exists i :: 0 <= i < |ops| && Defines(ops[i], v) && (i < n || (i == n && v.result < m))
  }

  // `collectSubgraphBoundary`: the results of the group used outside it, in order.
  method CollectSubgraphBoundary(body: seq<Op>, opVec: seq<Op>) returns (outputs: seq<Value>)
    requires DistinctIds(opVec)
    requires forall op :: op in opVec <==> op in body && op.id in GroupOf(opVec)
    ensures IsBoundary(body, GroupOf(opVec), outputs)
    ensures InOrder(opVec, outputs)
  {
    hide UsedOutside, IsBoundary;
    var opSet := GroupOf(opVec);
    outputs := [];
    for i := 0 to |opVec|
      invariant BoundaryUpTo(body, opSet, opVec, i, 0, outputs) && InOrder(opVec, outputs)
    {
      var op := opVec[i];
      for r := 0 to op.results
        invariant BoundaryUpTo(body, opSet, opVec, i, r, outputs) && InOrder(opVec, outputs)
      {
        var used := HasOutsideUse(body, opSet, Res(op.id, r));
        BoundaryNext(body, opSet, opVec, i, r, outputs);
        OrderNext(body, opSet, opVec, i, r, outputs);
        if used {
          outputs := outputs + [Res(op.id, r)];
        }
      }
      BoundaryOp(body, opSet, opVec, i, outputs);
    }
    BoundaryAll(body, opVec, outputs);
  }

  lemma BoundaryNext(body: seq<Op>, group: set<nat>, ops: seq<Op>, n: nat, m: nat, outputs: seq<Value>)
    requires n < |ops| && m < ops[n].results && DistinctIds(ops) && BoundaryUpTo(body, group, ops, n, m, outputs)
    ensures UsedOutside(body, group, Res(ops[n].id, m)) ==>
      BoundaryUpTo(body, group, ops, n, m + 1, outputs + [Res(ops[n].id, m)])
    ensures !UsedOutside(body, group, Res(ops[n].id, m)) ==> BoundaryUpTo(body, group, ops, n, m + 1, outputs)
  {
    hide UsedOutside;
    var u := Res(ops[n].id, m);
    assert u !in outputs;
    forall v: Value | v.Res?
      ensures (exists i :: 0 <= i < |ops| && Defines(ops[i], v) && (i < n || (i == n && v.result < m + 1)))
        <==> v == u || exists i :: 0 <= i < |ops| && Defines(ops[i], v) && (i < n || (i == n && v.result < m))
    {
      if v == u {
        assert Defines(ops[n], v);
      }
    }
  }

  lemma OrderNext(body: seq<Op>, group: set<nat>, ops: seq<Op>, n: nat, m: nat, outputs: seq<Value>)
    requires n < |ops| && BoundaryUpTo(body, group, ops, n, m, outputs) && InOrder(ops, outputs)
    ensures InOrder(ops, outputs + [Res(ops[n].id, m)])
  {
    hide UsedOutside;
    var u := Res(ops[n].id, m);
    forall a | 0 <= a < |outputs|
      ensures DefinedBefore(ops, outputs[a], u)
    {
      assert outputs[a] in outputs;
    }
    var more := outputs + [u];
    assert forall a, b :: 0 <= a < b < |more| ==> DefinedBefore(ops, more[a], more[b]);
  }

  lemma BoundaryOp(body: seq<Op>, group: set<nat>, ops: seq<Op>, n: nat, outputs: seq<Value>)
    requires n < |ops| && BoundaryUpTo(body, group, ops, n, ops[n].results, outputs)
    ensures BoundaryUpTo(body, group, ops, n + 1, 0, outputs)
  {
    hide UsedOutside;
  }

  lemma BoundaryAll(body: seq<Op>, ops: seq<Op>, outputs: seq<Value>)
    requires forall op :: op in ops <==> op in body && op.id in GroupOf(ops)
    requires BoundaryUpTo(body, GroupOf(ops), ops, |ops|, 0, outputs)
    ensures IsBoundary(body, GroupOf(ops), outputs)
  {
    hide UsedOutside;
    forall v: Value
      ensures Produced(body, GroupOf(ops), v) <==> v.Res? && exists i :: 0 <= i < |ops| && Defines(ops[i], v)
    {
      if op :| op in body && op.id in GroupOf(ops) && Defines(op, v) {
        assert op in ops;
      }
      if i :| 0 <= i < |ops| && Defines(ops[i], v) {
        assert ops[i] in ops;
      }
    }
  }

  /* Cloning into the new function */

  // The mapping from the values cloned so far to those of the new function.
  ghost predicate Maps(inputs: seq<nat>, made: seq<Op>, valueMap: map<Value, Value>) {
    && (forall v :: v in valueMap <==> (v.Arg? && v.index in inputs) || (v.Res? && Defined(0, made, v)))
    && (forall v :: v in valueMap ==> valueMap[v] == Rebind(inputs, v))
  }

  // `processOp`: clones an op through the mapping and enters its results.
  method CloneOp(op: Op, valueMap: map<Value, Value>, ghost inputs: seq<nat>, ghost made: seq<Op>)
      returns (outcome: Outcome, clone: Op, newMap: map<Value, Value>)
    requires Maps(inputs, made, valueMap) && !HasId(made, op.id)
    ensures outcome == if forall v :: v in op.operands ==> v in valueMap then Completed else OutOfScope
    ensures outcome.Completed? ==> clone == CloneOf(inputs)(op) && Maps(inputs, made + [op], newMap)
  {
    hide Defined, HasId;
    clone, newMap := op, valueMap;
    var remapped: seq<Value> := [];
    for i := 0 to |op.operands|
      invariant |remapped| == i
      invariant forall j :: 0 <= j < i ==> op.operands[j] in valueMap && remapped[j] == Rebind(inputs, op.operands[j])
    {
      if op.operands[i] !in valueMap {
        assert op.operands[i] in op.operands;
        return OutOfScope, clone, newMap;
      }
      remapped := remapped + [valueMap[op.operands[i]]];
    }
    clone := op.(operands := remapped);
    assert remapped == RebindOperands(inputs, op.operands);
    for r := 0 to op.results
      invariant forall v :: v in newMap <==> v in valueMap || (v.Res? && v.op == op.id && v.result < r)
      invariant forall v :: v in newMap ==> newMap[v] == Rebind(inputs, v)
    {
      if Res(op.id, r) !in newMap {
        newMap := newMap[Res(op.id, r) := Res(clone.id, r)];
      }
    }
    MapsMore(inputs, made, op, valueMap, newMap);
    outcome := Completed;
  }

  lemma MapsMore(inputs: seq<nat>, made: seq<Op>, op: Op, valueMap: map<Value, Value>, newMap: map<Value, Value>)
    requires Maps(inputs, made, valueMap)
    requires forall v :: v in newMap <==> v in valueMap || (v.Res? && v.op == op.id && v.result < op.results)
    requires forall v :: v in newMap ==> newMap[v] == Rebind(inputs, v)
    ensures Maps(inputs, made + [op], newMap)
  {
    forall v: Value | v.Res?
      ensures Defined(0, made + [op], v) <==> Defined(0, made, v) || Defines(op, v)
    {
      if x :| x in made && Defines(x, v) {
        assert x in made + [op];
      }
      if Defines(op, v) {
        assert op in made + [op];
      }
    }
  }

  // Everything an op to clone reads has been cloned or is an argument.
  lemma ReadsAreMapped(f: Func, c: Cut, i: nat, v: Value)
    requires Fits(f, c) && i < |ToClone(f.ops, c.group)| && v in ToClone(f.ops, c.group)[i].operands
    ensures (v.Arg? && v.index in c.inputs) || (v.Res? && Defined(0, ToClone(f.ops, c.group)[..i], v))
  {
    hide Loads, IsBoundary, EndsInTerminator, Ordered, Mapped, ToClone;
    var list := ToClone(f.ops, c.group);
    ClonesOrdered(f, c);
    ToCloneMembers(f.ops, c.group, list[i]);
    assert v.Arg? ==> v.index in c.inputs by {
      assert list[i] in list;
      assert IsShared(f.ops, v) || InScope(f.ops, c.group, c.inputs, v);
    }
    if v.Res? {
      CloneReadsEarlier(c.inputs, list, i, v);
    }
  }

  lemma ClonesOrdered(f: Func, c: Cut)
    requires Fits(f, c)
    ensures Ordered(|c.inputs|, Mapped(CloneOf(c.inputs), ToClone(f.ops, c.group)))
  {
    hide Fits, Ordered;
    OrderedClones(f, c, |f.ops|);
    assert f.ops[..|f.ops|] == f.ops;
  }

  lemma DefinedByClone(inputs: seq<nat>, made: seq<Op>, v: Value)
    requires v.Res? && Defined(|inputs|, Mapped(CloneOf(inputs), made), v)
    ensures Defined(0, made, v)
  {
    hide RebindOperands, Mapped;
    var x :| x in Mapped(CloneOf(inputs), made) && Defines(x, v);
    MappedMembers(CloneOf(inputs), made, x);
    var op :| op in made && x == CloneOf(inputs)(op);
    assert Defines(op, v);
  }

  lemma OrderedAt(args: nat, ops: seq<Op>, i: nat, v: Value)
    requires Ordered(args, ops) && i < |ops| && v in ops[i].operands
    ensures Defined(args, ops[..i], v)
  {
    OrderedPrefix(args, ops, i + 1);
    assert Front(ops[..i + 1]) == ops[..i] && Last(ops[..i + 1]) == ops[i];
  }

  lemma MappedPrefix(g: Op -> Op, ops: seq<Op>, i: nat)
    requires i < |ops|
    ensures Mapped(g, ops)[i] == g(ops[i]) && Mapped(g, ops)[..i] == Mapped(g, ops[..i])
  {}

  lemma ResultIsRead(inputs: seq<nat>, op: Op, v: Value)
    requires v in op.operands && v.Res?
    ensures v in CloneOf(inputs)(op).operands
  {
    RebindMembers(inputs, op.operands, v);
    assert v == Rebind(inputs, v);
  }

  lemma CloneReadsEarlier(inputs: seq<nat>, list: seq<Op>, i: nat, v: Value)
    requires Ordered(|inputs|, Mapped(CloneOf(inputs), list)) && i < |list| && v in list[i].operands && v.Res?
    ensures Defined(0, list[..i], v)
  {
    hide Ordered, Defined, Mapped, CloneOf;
    MappedPrefix(CloneOf(inputs), list, i);
    ResultIsRead(inputs, list[i], v);
    OrderedAt(|inputs|, Mapped(CloneOf(inputs), list), i, v);
    DefinedByClone(inputs, list[..i], v);
  }

  // The body and the signature of the new function.
  method BuildCallee(sharedOps: seq<Op>, ops: seq<Op>, ghost f: Func, ghost c: Cut, inputs: seq<nat>, outputs: seq<Value>, returnId: nat)
      returns (outcome: Outcome, callee: Func)
    requires Fits(f, c) && inputs == c.inputs && outputs == c.outputs && returnId == c.call
    requires sharedOps + ops == ToClone(f.ops, c.group)
    ensures outcome == Completed && callee == Callee(f, c)
  {
    hide Fits, Defined, Maps, ToClone, Mapped;
    MappedNone(CloneOf(inputs));
    callee := Func(0, {}, []);
    InputsDistinct(f, c);
    var valueMap := MapInputs(inputs);
    ghost var list := ToClone(f.ops, c.group);
    ListIsDistinct(f, c);
    var body: seq<Op> := [];
    assert list[..0] == [];
    var todo := sharedOps + ops;
    for i := 0 to |todo|
      invariant Maps(inputs, list[..i], valueMap)
      invariant body == Mapped(CloneOf(inputs), list[..i])
    {
      ListIdIsNew(list, i);
      forall v | v in todo[i].operands
        ensures v in valueMap
      {
        ReadsAreMapped(f, c, i, v);
        MapsHas(inputs, list[..i], valueMap, v);
      }
      var clone;
      outcome, clone, valueMap := CloneOp(todo[i], valueMap, inputs, list[..i]);
      if outcome != Completed {
        return outcome, callee;
      }
      MappedSnoc(CloneOf(inputs), list[..i], list[i]);
      assert list[..i + 1] == list[..i] + [list[i]];
      body := body + [clone];
    }
    assert list[..|list|] == list;
    var returnValues: seq<Value> := [];
    for i := 0 to |outputs|
      invariant returnValues == outputs[..i]
    {
      OutputIsMapped(f, c, outputs[i], valueMap);
      if outputs[i] !in valueMap {
        return MissingOutput, callee;
      }
      returnValues := returnValues + [valueMap[outputs[i]]];
    }
    assert body == Mapped(CloneOf(inputs), list) && returnValues == outputs;
    callee := Func(|inputs|, {}, body + [Op(returnId, Terminator, "func.return", map[], returnValues, 0)]);
    outcome := Completed;
  }

  lemma MapsHas(inputs: seq<nat>, made: seq<Op>, valueMap: map<Value, Value>, v: Value)
    requires Maps(inputs, made, valueMap)
    requires (v.Arg? && v.index in inputs) || (v.Res? && Defined(0, made, v))
    ensures v in valueMap
  {}

  lemma InputsDistinct(f: Func, c: Cut)
    requires Fits(f, c)
    ensures Distinct(c.inputs)
  {}

  lemma ListIsDistinct(f: Func, c: Cut)
    requires Fits(f, c)
    ensures DistinctIds(ToClone(f.ops, c.group))
  {
    hide Fits, Ordered, ToClone;
    ClonesOrdered(f, c);
    OrderedIsDistinct(|c.inputs|, Mapped(CloneOf(c.inputs), ToClone(f.ops, c.group)));
    var list := ToClone(f.ops, c.group);
    assert forall i :: 0 <= i < |list| ==> Mapped(CloneOf(c.inputs), list)[i].id == list[i].id;
  }

  lemma ListIdIsNew(list: seq<Op>, i: nat)
    requires DistinctIds(list) && i < |list|
    ensures !HasId(list[..i], list[i].id)
  {}

  lemma OutputIsMapped(f: Func, c: Cut, v: Value, valueMap: map<Value, Value>)
    requires Fits(f, c) && v in c.outputs && Maps(c.inputs, ToClone(f.ops, c.group), valueMap)
    ensures v in valueMap && valueMap[v] == v
  {
    hide Closed, Loads, WellFormed, ToClone;
    var op :| op in f.ops && op.id in c.group && Defines(op, v);
    ToCloneMembers(f.ops, c.group, op);
  }

  method MapInputs(inputs: seq<nat>) returns (valueMap: map<Value, Value>)
    requires Distinct(inputs)
    ensures Maps(inputs, [], valueMap)
  {
    valueMap := map[];
    for i := 0 to |inputs|
      invariant forall v :: v in valueMap <==> v.Arg? && v.index in inputs[..i]
      invariant forall v :: v in valueMap ==> valueMap[v] == Rebind(inputs, v)
    {
      assert inputs[..i + 1] == inputs[..i] + [inputs[i]];
      assert inputs[i] in inputs && IndexOf(inputs, inputs[i]) == i;
      valueMap := valueMap[Arg(inputs[i]) := Arg(i)];
    }
    assert inputs[..|inputs|] == inputs;
  }

  /* Replacing and erasing in the caller */

  // `replaceAllUsesWith`.
  function ReplaceUses(from: Value, to: Value): Op -> Op {
    (op: Op) => op.(operands := ReplaceIn(from, to, op.operands))
  }

  function ReplaceIn(from: Value, to: Value, vs: seq<Value>): seq<Value> {
    seq(|vs|, (i: nat) requires i < |vs| => if vs[i] == from then to else vs[i])
  }

  // Replacing the outputs one by one replaces them at once.
  lemma ReplaceNext(outputs: seq<Value>, call: nat, j: nat, op: Op)
    requires Distinct(outputs) && j < |outputs| && forall v :: v in outputs ==> v.Res? && v.op != call
    ensures ReplaceUses(outputs[j], Res(call, j))(RedirectOp(outputs[..j], call)(op)) == RedirectOp(outputs[..j + 1], call)(op)
  {
    var before := RedirectOperands(outputs[..j], call, op.operands);
    assert outputs[..j + 1] == outputs[..j] + [outputs[j]];
    forall i | 0 <= i < |op.operands|
      ensures ReplaceIn(outputs[j], Res(call, j), before)[i] == RedirectOperands(outputs[..j + 1], call, op.operands)[i]
    {
      ReplaceValue(outputs, call, j, op.operands[i]);
    }
    assert ReplaceIn(outputs[j], Res(call, j), before) == RedirectOperands(outputs[..j + 1], call, op.operands);
  }

  lemma ReplaceValue(outputs: seq<Value>, call: nat, j: nat, v: Value)
    requires Distinct(outputs) && j < |outputs| && forall u :: u in outputs ==> u.Res? && u.op != call
    ensures (if Redirect(outputs[..j], call, v) == outputs[j] then Res(call, j) else Redirect(outputs[..j], call, v))
            == Redirect(outputs[..j + 1], call, v)
  {
    assert outputs[j] in outputs && outputs[j] !in outputs[..j] && outputs[j] in outputs[..j + 1];
    assert outputs[..j + 1] == outputs[..j] + [outputs[j]];
    if v in outputs[..j + 1] {
      var k := IndexOf(outputs[..j + 1], v);
      assert outputs[k] == v;
      if v in outputs[..j] {
        var m := IndexOf(outputs[..j], v);
        assert outputs[m] == v && m == k;
      } else {
        assert v == outputs[j] && k == j;
      }
    }
  }

  lemma ReplaceAllNext(outputs: seq<Value>, call: nat, j: nat, ops: seq<Op>)
    requires Distinct(outputs) && j < |outputs| && forall v :: v in outputs ==> v.Res? && v.op != call
    ensures Mapped(ReplaceUses(outputs[j], Res(call, j)), Mapped(RedirectOp(outputs[..j], call), ops))
            == Mapped(RedirectOp(outputs[..j + 1], call), ops)
  {
    hide ReplaceUses, RedirectOp;
    forall i | 0 <= i < |ops|
      ensures ReplaceUses(outputs[j], Res(call, j))(RedirectOp(outputs[..j], call)(ops[i])) == RedirectOp(outputs[..j + 1], call)(ops[i])
    {
      ReplaceNext(outputs, call, j, ops[i]);
    }
  }

  lemma ReplaceNone(call: nat, ops: seq<Op>)
    ensures Mapped(RedirectOp([], call), ops) == ops
  {
    forall i | 0 <= i < |ops|
      ensures RedirectOp([], call)(ops[i]) == ops[i]
    {
      assert RedirectOperands([], call, ops[i].operands) == ops[i].operands;
    }
  }

  lemma {:induction false} FilterTwice(a: set<nat>, b: set<nat>, ops: seq<Op>)
    ensures Filter(Outside(a), Filter(Outside(b), ops)) == Filter(Outside(a + b), ops)
  {
    if ops != [] {
      FilterTwice(a, b, Front(ops));
      if Last(ops).id !in b {
        FilterSnoc(Outside(a), Filter(Outside(b), Front(ops)), Last(ops));
      } else {
        assert Filter(Outside(b), ops) == Filter(Outside(b), Front(ops));
      }
    }
  }

  /* Erasing */

  ghost predicate Uses(op: Op, id: nat) {
    exists v :: v in op.operands && v.Res? && v.op == id
  }

  // The outlined function before the last ops of the group are erased.
  function Replaced(f: Func, c: Cut): seq<Op>
    requires c.index <= |f.ops|
  {
    Mapped(RedirectOp(c.outputs, c.call), Inserted(f.ops, c.index, CallOp(c)))
  }

  lemma ReplacedMembers(f: Func, c: Cut, x: Op)
    requires Fits(f, c)
    ensures x in Replaced(f, c) <==> x == CallOp(c) || exists op :: op in f.ops && x == RedirectOp(c.outputs, c.call)(op)
  {
    hide Closed, WellFormed, Loads;
    var g := RedirectOp(c.outputs, c.call);
    var l := Inserted(f.ops, c.index, CallOp(c));
    MappedMembers(g, l, x);
    OutputsAreResults(f, c);
    RedirectArgs(c.outputs, c.call, CallOp(c));
    forall op
      ensures op in l <==> op == CallOp(c) || op in f.ops
    {
      assert f.ops == f.ops[..c.index] + f.ops[c.index..];
    }
  }

  // The ops of the group in the order of the body.
  function GroupOps(f: Func, c: Cut): seq<Op> {
    Filter(InGroup(c.group), f.ops)
  }

  // Within a group no op reads a later one, nor itself.
  lemma NoLaterRead(f: Func, c: Cut, i: nat, j: nat, v: Value)
    requires Fits(f, c) && i <= j < |GroupOps(f, c)| && v in GroupOps(f, c)[i].operands
    ensures !Defines(GroupOps(f, c)[j], v)
  {
    hide Fits, Filter, Ordered, Mapped;
    var shared := Filter(SharedOnly(), f.ops);
    var list := ToClone(f.ops, c.group);
    assert list == shared + GroupOps(f, c);
    ListIsDistinct(f, c);
    ReadsAreMapped(f, c, |shared| + i, v);
    if v.Res? {
      var x :| x in list[..|shared| + i] && Defines(x, v);
      var k :| 0 <= k < |shared| + i && list[k] == x;
      assert list[k].id != list[|shared| + j].id;
    }
  }

  // Nothing that is left uses an op of the group whose later ops are gone.
  lemma LastIsUnused(f: Func, c: Cut, j: nat, x: Op)
    requires Fits(f, c) && j < |GroupOps(f, c)|
    requires x in Replaced(f, c) && x.id !in GroupOf(GroupOps(f, c)[j + 1..])
    ensures !Uses(x, GroupOps(f, c)[j].id)
  {
    hide Closed, Loads, FromShared, EndsInTerminator, Ordered, Replaced, Filter, IsBoundary;
    var id := GroupOps(f, c)[j].id;
    ReplacedMembers(f, c, x);
    if x != CallOp(c) {
      var op :| op in f.ops && x == RedirectOp(c.outputs, c.call)(op);
      forall u | u in x.operands && u.Res?
        ensures u.op != id
      {
        RedirectMembers(c.outputs, c.call, op.operands, u);
        var v :| v in op.operands && u == Redirect(c.outputs, c.call, v);
        FilterMembers(InGroup(c.group), f.ops, GroupOps(f, c)[j]);
        if v !in c.outputs {
          KeptReadIsElsewhere(f, c, j, op, v);
        }
      }
    }
  }

  lemma KeptReadIsElsewhere(f: Func, c: Cut, j: nat, op: Op, v: Value)
    requires Fits(f, c) && j < |GroupOps(f, c)| && op in f.ops && op.id !in GroupOf(GroupOps(f, c)[j + 1..])
    requires v in op.operands && v !in c.outputs && v.Res?
    ensures v.op != GroupOps(f, c)[j].id
  {
    hide Closed, Loads, FromShared, EndsInTerminator, Ordered, Filter;
    var group := GroupOps(f, c);
    var last := group[j];
    FilterMembers(InGroup(c.group), f.ops, last);
    OperandDefined(f.args, f.ops, op, v);
    var d :| d in f.ops && Defines(d, v);
    if d.id == last.id {
      UniqueOp(f.args, f.ops, d, last);
    }
    if op.id in c.group {
      FilterMembers(InGroup(c.group), f.ops, op);
      var i :| 0 <= i < |group| && group[i] == op;
      NotInRest(group, j, i);
      NoLaterRead(f, c, i, j, v);
    } else {
      assert UsedOutside(f.ops, c.group, v);
      assert Defines(last, v) ==> Produced(f.ops, c.group, v);
    }
  }

  lemma NotInRest(ops: seq<Op>, j: nat, i: nat)
    requires j < |ops| && i < |ops| && ops[i].id !in GroupOf(ops[j + 1..])
    ensures i <= j
  {
    var rest := ops[j + 1..];
    forall k | j < k < |ops|
      ensures ops[k].id in GroupOf(rest)
    {
      assert ops[k] == rest[k - j - 1];
    }
  }

  // What the body is while the ops from j on have been erased.
  function Erased(f: Func, c: Cut, j: nat): seq<Op>
    requires c.index <= |f.ops| && j <= |GroupOps(f, c)|
  {
    Filter(Outside(GroupOf(GroupOps(f, c)[j..])), Replaced(f, c))
  }

  lemma EraseNext(f: Func, c: Cut, j: nat)
    requires c.index <= |f.ops| && j < |GroupOps(f, c)|
    ensures Filter(Outside({GroupOps(f, c)[j].id}), Erased(f, c, j + 1)) == Erased(f, c, j)
  {
    var group := GroupOps(f, c);
    FilterTwice({group[j].id}, GroupOf(group[j + 1..]), Replaced(f, c));
    assert group[j..] == [group[j]] + group[j + 1..];
    assert GroupOf(group[j..]) == {group[j].id} + GroupOf(group[j + 1..]);
  }

  lemma ErasedNone(f: Func, c: Cut)
    requires c.index <= |f.ops|
    ensures Erased(f, c, |GroupOps(f, c)|) == Replaced(f, c)
  {
    assert GroupOf(GroupOps(f, c)[|GroupOps(f, c)|..]) == {};
    FilterAll(Outside({}), Replaced(f, c));
  }

  lemma ErasedAll(f: Func, c: Cut)
    requires Fits(f, c) && GroupOf(GroupOps(f, c)) == c.group
    ensures Erased(f, c, 0) == After(f, c).ops
  {
    assert GroupOps(f, c)[0..] == GroupOps(f, c);
  }

  /* The pass */

  class ConstEvalHoistTransform {
    var main: Func
    var consts: seq<Func>

    constructor (f: Func)
      ensures main == f && consts == []
    {
      main, consts := f, [];
    }

    // Replaces the uses of each output by a result of the call.
    method ReplaceOutputs(outputs: seq<Value>, call: nat)
      requires Distinct(outputs) && forall v :: v in outputs ==> v.Res? && v.op != call
      modifies this`main
      ensures main == old(main).(ops := Mapped(RedirectOp(outputs, call), old(main).ops))
    {
      hide Mapped, RedirectOp;
      ghost var before := main;
      ReplaceNone(call, before.ops);
      for i := 0 to |outputs|
        invariant main == before.(ops := Mapped(RedirectOp(outputs[..i], call), before.ops))
      {
        main := main.(ops := Mapped(ReplaceUses(outputs[i], Res(call, i)), main.ops));
        ReplaceAllNext(outputs, call, i, before.ops);
      }
      assert outputs[..|outputs|] == outputs;
    }

    // Erases the ops of a group from the last to the first; erasing an op in use fails.
    method EraseOps(ops: seq<Op>, ghost f: Func, ghost c: Cut) returns (outcome: Outcome)
      requires Fits(f, c) && ops == GroupOps(f, c) && main == f.(ops := Replaced(f, c))
      modifies this`main
      ensures outcome == Completed && main == f.(ops := Erased(f, c, 0))
    {
      hide Erased, Replaced, GroupOps, WellFormed, Closed, IsBoundary, Loads;
      ErasedNone(f, c);
      var j := |ops|;
      while j > 0
        invariant 0 <= j <= |ops| && main == f.(ops := Erased(f, c, j))
      {
        j := j - 1;
        var used := HasUse(main.ops, ops[j].id);
        forall x | x in main.ops
          ensures !Uses(x, ops[j].id)
        {
          ErasedMembers(f, c, j + 1, x);
          LastIsUnused(f, c, j, x);
        }
        if used {
          return StillUsed;
        }
        EraseNext(f, c, j);
        main := main.(ops := Filter(Outside({ops[j].id}), main.ops));
      }
      outcome := Completed;
    }

    // `createConstEvalFunction`: no assertion fails, and the program is the outlined one.
    method CreateConstEvalFunction(subgraph: Subgraph, sharedOps: seq<Op>, subgraphIdx: nat) returns (outcome: Outcome, ghost c: Cut)
      requires WellFormed(main) && IsGroupOf(main.ops, subgraph)
      requires Closed(main.ops, GroupOf(subgraph.ops), SortedBelow(subgraph.inputParameters, main.args))
      requires sharedOps == Filter(SharedOnly(), main.ops) && Loads(main.ops, subgraphIdx)
      modifies this
      ensures outcome == Completed
      ensures Fits(old(main), c) && c.index == subgraphIdx && c.group == GroupOf(subgraph.ops)
      ensures c.inputs == SortedBelow(subgraph.inputParameters, old(main).args) && InOrder(subgraph.ops, c.outputs)
      ensures main == After(old(main), c) && consts == old(consts) + [Callee(old(main), c)]
    {
      hide WellFormed, Closed, IsBoundary, Loads, Filter, Mapped, Distinct, InRange, After, Callee, InOrder;
      var f := main;
      var inputs := SortedBelow(subgraph.inputParameters, f.args);
      GroupIsWhole(f, subgraph);
      var outputs := CollectSubgraphBoundary(f.ops, subgraph.ops);
      var callId := FreshId(f.ops);
      c := Cut(GroupOf(subgraph.ops), inputs, outputs, callId, subgraphIdx);
      CutFits(f, subgraph, c);
      var callee;
      outcome, callee := BuildCallee(sharedOps, subgraph.ops, f, c, inputs, outputs, callId);
      if outcome != Completed {
        return;
      }
      consts := consts + [callee];
      RoomForCall(f, subgraphIdx);
      if subgraphIdx >= |f.ops| {
        return BadInsertionPoint, c;
      }
      var operands := seq(|inputs|, (i: nat) requires i < |inputs| => Arg(inputs[i]));
      main := main.(ops := Inserted(f.ops, subgraphIdx, Op(callId, LoadCached(subgraphIdx), "tt.load_cached", map[], operands, |outputs|)));
      OutputsAreResults(f, c);
      OutputsDistinct(f, c);
      ReplaceOutputs(outputs, callId);
      assert operands == CallOp(c).operands;
      assert main.ops == Replaced(f, c);
      outcome := EraseOps(subgraph.ops, f, c);
      ErasedAll(f, c);
      AfterFunc(f, c);
    }

    // `processFunction`: the analysis, then one new function for each subgraph, in any order.
    method ProcessFunction() returns (outcome: Outcome, ghost subgraphs: seq<Subgraph>, ghost cuts: seq<Cut>)
      requires WellFormed(main) && NoCalls(main.ops) && consts == []
      modifies this
      ensures outcome == Completed
      ensures IsPartition(old(main), subgraphs) && CutsOf(old(main), subgraphs, cuts)
      ensures Program(main, consts) == Outlined(old(main), cuts, |cuts|)
      ensures forall i, p :: 0 <= i < |cuts| && p in cuts[i].inputs ==> p in old(main).constArgs
      ensures CallsAreConstant(Program(main, consts))
    {
      hide WellFormed, NoCalls, IsPartition, Fits, Closed, Filter, After, Callee, IsGroupOf, Loads, Outlined, AllFit, CutsMatch, CutsOf, SortedBelow, GroupOf, InOrder, CallsAreConstant;
      ghost var f := main;
      cuts := [];
      var analyzer := new ConstEvalAnalyze(main);
      var found, sharedOps := analyzer.GetAnalysisResults();
      subgraphs := found;
      NoCutsYet(f, found);
      for i := 0 to |found|
        invariant |cuts| == i && AllFit(f, cuts, i) && CutsMatch(f, found, cuts)
        invariant Program(main, consts) == Outlined(f, cuts, i)
        invariant this as object != analyzer
      {
        SubgraphReady(f, found, cuts, i);
        ghost var c;
        outcome, c := CreateConstEvalFunction(found[i], sharedOps, i);
        if outcome != Completed {
          return;
        }
        CutAppended(f, found, cuts, c);
        cuts := cuts + [c];
      }
      CutsDone(f, found, cuts);
      forall i | 0 <= i < |cuts| {
        InputsAreConstant(f, found, cuts, i);
      }
      OutlinedCallsAreConstant(f, found, cuts);
      outcome := Completed;
    }
  }

  method HasUse(ops: seq<Op>, id: nat) returns (r: bool)
    ensures r <==> exists x :: x in ops && Uses(x, id)
  {
    for i := 0 to |ops|
      invariant forall x :: x in ops[..i] ==> !Uses(x, id)
    {
      for k := 0 to |ops[i].operands|
        invariant forall v :: v in ops[i].operands[..k] ==> !(v.Res? && v.op == id)
      {
        var v := ops[i].operands[k];
        if v.Res? && v.op == id {
          assert v in ops[i].operands && ops[i] in ops;
          assert Uses(ops[i], id);
          return true;
        }
        assert ops[i].operands[..k + 1] == ops[i].operands[..k] + [v];
      }
      assert ops[i].operands[..|ops[i].operands|] == ops[i].operands;
      assert ops[..i + 1] == ops[..i] + [ops[i]];
    }
    assert ops[..|ops|] == ops;
    r := false;
  }

  lemma ErasedMembers(f: Func, c: Cut, j: nat, x: Op)
    requires c.index <= |f.ops| && j <= |GroupOps(f, c)| && x in Erased(f, c, j)
    ensures x in Replaced(f, c) && x.id !in GroupOf(GroupOps(f, c)[j..])
  {
    hide Replaced, GroupOps, Filter;
    FilterMembers(Outside(GroupOf(GroupOps(f, c)[j..])), Replaced(f, c), x);
  }

  lemma GroupIsWhole(f: Func, s: Subgraph)
    requires WellFormed(f) && IsGroupOf(f.ops, s)
    ensures DistinctIds(s.ops)
    ensures forall op :: op in s.ops <==> op in f.ops && op.id in GroupOf(s.ops)
  {
    hide Filter, EndsInTerminator, FromShared;
    FilterOrderedDistinct(f.args, f.ops, InGroup(GroupOf(s.ops)));
    forall op
      ensures op in s.ops <==> op in f.ops && op.id in GroupOf(s.ops)
    {
      GroupMember(f.ops, s, op);
    }
  }

  lemma {:induction false} FilterOrderedDistinct(args: nat, ops: seq<Op>, keep: Op -> bool)
    requires Ordered(args, ops)
    ensures DistinctIds(Filter(keep, ops))
  {
    if ops != [] {
      FilterOrderedDistinct(args, Front(ops), keep);
      var before := Filter(keep, Front(ops));
      forall i | 0 <= i < |before|
        ensures before[i].id != Last(ops).id
      {
        FilterMembers(keep, Front(ops), before[i]);
      }
    }
  }

  lemma CutFits(f: Func, s: Subgraph, c: Cut)
    requires WellFormed(f) && c.group == GroupOf(s.ops) && c.inputs == SortedBelow(s.inputParameters, f.args)
    requires Closed(f.ops, c.group, c.inputs) && IsBoundary(f.ops, c.group, c.outputs)
    requires c.call == FreshId(f.ops) && Loads(f.ops, c.index) && IsGroupOf(f.ops, s)
    ensures Fits(f, c)
    ensures GroupOps(f, c) == s.ops && GroupOf(GroupOps(f, c)) == c.group
  {
    hide WellFormed, Closed, IsBoundary, Filter, SortedBelow;
    SortedMembers(s.inputParameters, f.args);
    FreshIsNew(f.ops);
    forall id | id in c.group
      ensures id != c.call
    {
      var op :| op in s.ops && op.id == id;
      GroupMember(f.ops, s, op);
    }
  }

  lemma RoomForCall(f: Func, n: nat)
    requires WellFormed(f) && Loads(f.ops, n)
    ensures n < |f.ops|
  {
    hide Ordered, FromShared;
  }

  lemma OutputsDistinct(f: Func, c: Cut)
    requires Fits(f, c)
    ensures Distinct(c.outputs)
  {}

  lemma AfterFunc(f: Func, c: Cut)
    requires c.index <= |f.ops|
    ensures After(f, c) == f.(ops := After(f, c).ops)
  {}

  ghost predicate CutsMatch(f: Func, subgraphs: seq<Subgraph>, cuts: seq<Cut>) {
    && |cuts| <= |subgraphs|
    && forall i :: 0 <= i < |cuts| ==>
         && cuts[i].group == GroupOf(subgraphs[i].ops) && cuts[i].inputs == SortedBelow(subgraphs[i].inputParameters, f.args)
         && InOrder(subgraphs[i].ops, cuts[i].outputs)
  }

  lemma NoCutsYet(f: Func, subgraphs: seq<Subgraph>)
    ensures AllFit(f, [], 0) && CutsMatch(f, subgraphs, []) && Outlined(f, [], 0) == Program(f, [])
  {}

  lemma CutsDone(f: Func, subgraphs: seq<Subgraph>, cuts: seq<Cut>)
    requires |cuts| == |subgraphs| && AllFit(f, cuts, |cuts|) && CutsMatch(f, subgraphs, cuts)
    ensures CutsOf(f, subgraphs, cuts)
  {
    hide AllFit;
  }

  // When a subgraph's turn comes its ops and the shared ops are where the analysis saw them.
  lemma SubgraphReady(f: Func, subgraphs: seq<Subgraph>, cuts: seq<Cut>, n: nat)
    requires WellFormed(f) && NoCalls(f.ops) && IsPartition(f, subgraphs)
    requires n == |cuts| < |subgraphs| && AllFit(f, cuts, n) && CutsMatch(f, subgraphs, cuts)
    ensures var main, s := Outlined(f, cuts, n).main, subgraphs[n];
      && WellFormed(main) && IsGroupOf(main.ops, s) && main.args == f.args && Loads(main.ops, n)
      && Closed(main.ops, GroupOf(s.ops), SortedBelow(s.inputParameters, main.args))
      && Filter(SharedOnly(), main.ops) == Filter(SharedOnly(), f.ops)
  {
    hide WellFormed, NoCalls, Fits, Closed, Filter, After, Callee, Moves, Connected, Hoisted, Loads;
    var s := subgraphs[n];
    var inputs := SortedBelow(s.inputParameters, f.args);
    OutlinedIntact(f, cuts, n);
    SharedWait(f, cuts, n);
    ParamsInRange(f, subgraphs, s);
    SortedMembers(s.inputParameters, f.args);
    SubgraphIsClosed(f, subgraphs, s, inputs);
    GroupWaits(f, cuts, n, s, inputs);
  }

  lemma {:induction false} OutlinedPrefix(f: Func, cuts: seq<Cut>, c: Cut, n: nat)
    requires n <= |cuts|
    ensures Outlined(f, cuts + [c], n) == Outlined(f, cuts, n)
  {
    if n > 0 {
      OutlinedPrefix(f, cuts, c, n - 1);
    }
  }

  lemma CutAppended(f: Func, subgraphs: seq<Subgraph>, cuts: seq<Cut>, c: Cut)
    requires AllFit(f, cuts, |cuts|) && CutsMatch(f, subgraphs, cuts) && |cuts| < |subgraphs|
    requires Fits(Outlined(f, cuts, |cuts|).main, c) && c.index == |cuts|
    requires c.group == GroupOf(subgraphs[|cuts|].ops) && c.inputs == SortedBelow(subgraphs[|cuts|].inputParameters, f.args)
    requires InOrder(subgraphs[|cuts|].ops, c.outputs)
    ensures AllFit(f, cuts + [c], |cuts| + 1) && CutsMatch(f, subgraphs, cuts + [c])
    ensures var p := Outlined(f, cuts, |cuts|);
      c.index <= |p.main.ops| && Outlined(f, cuts + [c], |cuts| + 1) == Program(After(p.main, c), p.consts + [Callee(p.main, c)])
  {
    hide Fits, After, Callee, InOrder;
    FitsIndex(Outlined(f, cuts, |cuts|).main, c);
    forall i | 0 <= i < |cuts| + 1
      ensures FitsAt(f, cuts + [c], i)
    {
      OutlinedPrefix(f, cuts, c, i);
      assert i < |cuts| ==> FitsAt(f, cuts, i);
    }
    OutlinedPrefix(f, cuts, c, |cuts|);
  }
}
