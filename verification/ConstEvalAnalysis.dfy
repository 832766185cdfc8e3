/**
 * The const-eval analysis of `lib/Transforms/ConstEvalHoist.cpp`: one forward pass that classifies
 * ops and groups them with a union-find, and the collection of the groups it found.
 */
module ConstEvalAnalysis {
  import opened IR
  import opened Outlining
  import opened UnionFind
  import opened ConstEvalSpec
  import opened ConstEvalGroups
  import opened Permutations
  import opened Wrappers

  // The op a value is a result of.
  function DefiningOp(ops: seq<Op>, v: Value): (r: Option<Op>)
    ensures r.Some? ==> r.value in ops && Defines(r.value, v)
    ensures r.None? ==> forall op :: op in ops ==> !Defines(op, v)
  {
    if ops == [] then None
    else if Defines(Last(ops), v) then Some(Last(ops))
    else DefiningOp(Front(ops), v)
  }

  ghost predicate SameRoots(p: map<nat, nat>, rank: map<nat, nat>, q: map<nat, nat>) {
    && Forest(p, rank) && Forest(q, rank) && q.Keys == p.Keys
    && forall z :: z in p ==> Root(q, rank, z) == Root(p, rank, z)
  }

  // The id points at the root now, and every other id at what it did or at the root.
  predicate PointsAt(before: map<nat, nat>, after: map<nat, nat>, id: nat, root: nat) {
    && id in after && after[id] == root
    && forall z :: z in before ==> z in after && (after[z] == before[z] || after[z] == root)
  }

  lemma PointsAtNew(p: map<nat, nat>, id: nat)
    ensures PointsAt(p, p[id := id], id, id)
  {}

  lemma PointsAtItself(p: map<nat, nat>, id: nat)
    requires id in p && p[id] == id
    ensures PointsAt(p, p, id, id)
  {}

  lemma PointsAtMore(before: map<nat, nat>, after: map<nat, nat>, above: nat, id: nat, root: nat)
    requires PointsAt(before, after, above, root)
    ensures PointsAt(before, after[id := root], id, root) && PointsAt(before, after[id := root], above, root)
  {}

  // Of two roots the one of lower rank goes under the other; at equal rank the second goes under the
  // first, whose rank grows.
  predicate LinkedByRank(before: map<nat, nat>, parent: map<nat, nat>, rank: map<nat, nat>, a: nat, b: nat) {
    && a in before && b in before && a in parent && b in parent
    && (a == b ==> rank == before)
    && (before[a] < before[b] ==> parent[a] == b && rank == before)
    && (before[a] > before[b] ==> parent[b] == a && rank == before)
    && (a != b && before[a] == before[b] ==> parent[b] == a && rank == before[a := before[a] + 1])
  }

  lemma AlreadyLinked(parent: map<nat, nat>, rank: map<nat, nat>, a: nat)
    requires a in parent && a in rank
    ensures LinkedByRank(rank, parent, rank, a, a)
  {}

  lemma LinkIsByRank(p: map<nat, nat>, rank: map<nat, nat>, a: nat, b: nat)
    requires a in p && b in p && a in rank && b in rank && a != b
    ensures rank[a] < rank[b] ==> LinkedByRank(rank, p[a := b], rank, a, b)
    ensures rank[a] > rank[b] ==> LinkedByRank(rank, p[b := a], rank, a, b)
    ensures rank[a] == rank[b] ==> LinkedByRank(rank, p[b := a], rank[a := rank[a] + 1], a, b)
  {}

  lemma TurnComes(f: Func, k: nat)
    requires WellFormed(f) && k < |f.ops| && f.ops[k].id in Hoisted(f)
    ensures Turn(f, HoistedAmong(f, k), f.ops[k])
  {
    hide Reads, EndsInTerminator, FromShared, AllConst;
    HoistedWhenReached(f, k);
    HoistedGrows(f, k, |f.ops|);
    var op := f.ops[k];
    forall x | x in f.ops && Reads(op, x) && x.id in Hoisted(f)
      ensures x.id in HoistedAmong(f, k)
    {
      ReadHoistedEarlier(f, k, x);
    }
  }

  lemma ReadHoistedEarlier(f: Func, k: nat, x: Op)
    requires WellFormed(f) && k < |f.ops| && x in f.ops && Reads(f.ops[k], x) && x.id in Hoisted(f)
    ensures x.id in HoistedAmong(f, k)
  {
    hide EndsInTerminator, FromShared, Ordered, HoistedAmong;
    OrderedPrefix(f.args, f.ops, k + 1);
    var v :| v in f.ops[k].operands && Defines(x, v);
    ReadsEarlier(f, k, v);
    var q :| q in f.ops[..k] && Defines(q, v);
    UniqueOp(f.args, f.ops, q, x);
    HoistedLater(f, k, |f.ops|, x.id);
  }

  // The maps know an operand iff its op has moved.
  lemma KnownIsConst(f: Func, h: set<nat>, g: Groups, v: Value, d: Option<Op>)
    requires WellFormed(f) && Tracks(f, h, g) && v.Res?
    requires d.Some? ==> d.value in f.ops && Defines(d.value, v)
    requires d.None? ==> forall op :: op in f.ops ==> !Defines(op, v)
    ensures v in g.values <==> d.Some? && d.value.id in g.ops
    ensures IsConst(f, h, v) <==> v in g.values || (d.Some? && (d.value.kind.Shared? || d.value.kind.Creation?))
  {
    hide EndsInTerminator, FromShared, Ordered;
    forall x | x in f.ops && Defines(x, v)
      ensures d == Some(x)
    {
      UniqueOp(f.args, f.ops, x, d.value);
    }
    if d.Some? {
      assert d.value.id in g.ops <==> Moves(f, h, d.value);
    }
  }

  // The operands gathered so far.
  ghost predicate GatheredFrom(f: Func, vs: seq<Value>, g: Groups, deps: set<nat>, creations: set<Op>, inputs: set<nat>) {
    && (forall d :: d in deps <==> exists v :: v in vs && v in g.values && g.values[v] == d)
    && (forall c :: c in creations <==> c in f.ops && c.kind.Creation? && c.id !in g.ops && exists v :: v in vs && Defines(c, v))
    && (forall p: nat :: p in inputs <==> Arg(p) in vs)
  }

  class ConstEvalAnalyze {
    const func: Func
    var parent: map<nat, nat>
    var rank: map<nat, nat>
    var valueToSubgraphMap: map<Value, nat>
    var opToSubgraphMap: map<nat, nat>
    var subgraphParams: map<nat, set<nat>>
    var nextSubgraphId: nat
    var sharedOps: seq<Op>

    function Tables(): Groups
      reads this
    {
      Groups(parent, rank, valueToSubgraphMap, opToSubgraphMap, subgraphParams, nextSubgraphId)
    }

    // The analysis has processed the first k ops.
    ghost predicate Valid(k: nat)
      reads this
    {
      && k <= |func.ops| && WellFormed(func) && NoCalls(func.ops)
      && Good(func, HoistedAmong(func, k), Tables())
      && sharedOps == Filter(SharedOnly(), func.ops[..k])
    }

    constructor (f: Func)
      requires WellFormed(f) && NoCalls(f.ops)
      ensures func == f && Valid(|f.ops|)
    {
      hide Good, WellFormed, Hoisted;
      func := f;
      parent, rank, valueToSubgraphMap, opToSubgraphMap := map[], map[], map[], map[];
      subgraphParams, nextSubgraphId, sharedOps := map[], 0, [];
      new;
      EmptyIsGood(f);
      assert Tables() == Empty();
      for i := 0 to |f.ops|
        invariant Valid(i)
      {
        ProcessOp(i);
      }
    }

    method FindRoot(id: nat) returns (root: nat)
      requires Forest(parent, rank) && Balanced(parent, rank)
      modifies this`parent, this`rank
      ensures id !in old(parent) ==> root == id && parent == old(parent)[id := id] && rank == old(rank)[id := 0]
      ensures id in old(parent) ==> rank == old(rank) && SameRoots(old(parent), rank, parent) && Balanced(parent, rank)
      ensures id in old(parent) ==> root == Root(old(parent), old(rank), id)
      ensures PointsAt(old(parent), parent, id, root)
      decreases if id in parent && id in rank then Above(rank, id) else {}
    {
      hide Forest, Root, Balanced, SameRoots, PointsAt;
      if id !in parent {
        PointsAtNew(parent, id);
        parent, rank := parent[id := id], rank[id := 0];
        return id;
      }
      SameDomain(parent, rank, id);
      RootOfParent(parent, rank, id);
      if parent[id] != id {
        ghost var before := parent;
        SameDomain(parent, rank, parent[id]);
        AboveShrinks(parent, rank, id);
        var top := FindRoot(parent[id]);
        Compressed(before, parent, rank, id, top);
        PointsAtMore(before, parent, before[id], id, top);
        parent := parent[id := top];
      } else {
        AlreadyRoot(parent, rank, id);
        PointsAtItself(parent, id);
      }
      root := parent[id];
    }

    method UnionSubgraphs(x: nat, y: nat) returns (ghost top: nat)
      requires Forest(parent, rank) && Balanced(parent, rank) && x in parent && y in parent
      modifies this`parent, this`rank
      ensures MergedBy(old(parent), old(rank), parent, rank, {Root(old(parent), old(rank), x), Root(old(parent), old(rank), y)}, top)
      ensures parent.Keys == old(parent).Keys
      ensures LinkedByRank(old(rank), parent, rank, Root(old(parent), old(rank), x), Root(old(parent), old(rank), y))
    {
      hide Forest, Root, Balanced, MergedBy, SameRoots, LinkedByRank, PointsAt;
      ghost var p := parent;
      var rootX := FindRoot(x);
      SameRootsFacts(p, rank, parent, x);
      SameRootsFacts(p, rank, parent, y);
      ghost var q := parent;
      var rootY := FindRoot(y);
      SameRootsTwice(p, q, parent, rank);
      SameRootsFacts(p, rank, parent, x);
      SameRootsFacts(p, rank, parent, y);
      if rootX == rootY {
        MergedAlready(p, parent, rank, rootX);
        AlreadyLinked(parent, rank, rootX);
        return rootX;
      }
      top := Top(rank, rootX, rootY);
      MergedByLink(p, rank, parent, rootX, rootY);
      LinkIsByRank(parent, rank, rootX, rootY);
      if rank[rootX] < rank[rootY] {
        parent := parent[rootX := rootY];
      } else {
        parent := parent[rootY := rootX];
        if rank[rootX] == rank[rootY] {
          rank := rank[rootX := rank[rootX] + 1];
        }
      }
    }

    // The subgraph an op with these dependencies joins: a new one, or the merged old ones.
    method ChooseTarget(deps: set<nat>) returns (target: nat, ghost top: nat)
      requires Sets(Tables()) && deps <= parent.Keys
      modifies this`parent, this`rank, this`nextSubgraphId
      ensures Placed(old(Tables()), deps, target, parent, rank, top)
      ensures forall x: nat :: x in parent <==> x < nextSubgraphId
    {
      hide Forest, Root, Balanced, MergedBy, SameRoots, RootsOf, Placed, Sets, PointsAt, LinkedByRank;
      ghost var g := Tables();
      SetsBelow(g);
      if deps == {} {
        target := nextSubgraphId;
        top := target;
        nextSubgraphId := nextSubgraphId + 1;
        FreshIsPlaced(g, target);
        parent, rank := parent[target := target], rank[target := 0];
        return;
      }
      target :| target in deps;
      var rest := deps - {target};
      top := Root(parent, rank, target);
      ghost var done := {target};
      OneIsPlaced(g, target);
      while rest != {}
        invariant rest <= deps && done == deps - rest && target in done
        invariant parent.Keys == g.parent.Keys && nextSubgraphId == g.next
        invariant Placed(g, done, target, parent, rank, top)
      {
        var s :| s in rest;
        assert s in deps;
        rest := rest - {s};
        ghost var p, k := parent, rank;
        PlacedForest(g, done, target, parent, rank, top);
        ghost var joint := UnionSubgraphs(target, s);
        PlacedMore(g, done, target, p, k, top, parent, rank, s, joint);
        top, done := joint, done + {s};
        assert done == deps - rest;
      }
      assert done == deps;
      if |deps| > 1 {
        ghost var p := parent;
        PlacedForest(g, done, target, parent, rank, top);
        var chosen := FindRoot(target);
        SameRootsDomain(p, rank, parent);
        PlacedAtRoot(g, done, target, p, rank, top, parent);
        target := chosen;
      }
    }

    // Sorts one operand into what it makes the op depend on; false when it is not constant.
    method OperandIsConstEval(operand: Value, inputParams: set<nat>, creationOps: set<Op>, dependentSubgraphIds: set<nat>, ghost k: nat)
        returns (isConst: bool, inputs: set<nat>, creations: set<Op>, deps: set<nat>)
      requires Valid(k)
      ensures isConst <==> IsConst(func, HoistedAmong(func, k), operand)
      ensures operand.Arg? ==> (isConst <==> operand.index in func.constArgs)
      ensures operand.Res? ==> (isConst <==> exists d ::
        d in func.ops && d.id == operand.op && operand.result < d.results
        && (d.kind.Shared? || d.kind.Creation? || d.id in HoistedAmong(func, k)))
      ensures isConst && operand.Arg? ==> inputs == inputParams + {operand.index} && creations == creationOps && deps == dependentSubgraphIds
      ensures isConst && operand.Res? ==> inputs == inputParams
      ensures isConst && operand.Res? ==>
        deps == if operand in valueToSubgraphMap then dependentSubgraphIds + {valueToSubgraphMap[operand]} else dependentSubgraphIds
      ensures isConst && operand.Res? ==>
        forall c :: c in creations <==>
          c in creationOps || (c in func.ops && c.kind.Creation? && Defines(c, operand) && operand !in valueToSubgraphMap)
    {
      hide Sets, LinksAgree, SameIsConnected, ParamsExact, Tracks, Ordered, FromShared, EndsInTerminator, HoistedAmong, Filter;
      inputs, creations, deps := inputParams, creationOps, dependentSubgraphIds;
      if operand.Arg? {
        isConst := operand.index in func.constArgs;
        if isConst {
          inputs := inputs + {operand.index};
        }
        return;
      }
      var defOp := DefiningOp(func.ops, operand);
      KnownIsConst(func, HoistedAmong(func, k), Tables(), operand, defOp);
      OneDefinition(func, operand, defOp);
      if operand in valueToSubgraphMap {
        deps := deps + {valueToSubgraphMap[operand]};
        return true, inputs, creations, deps;
      }
      if defOp.Some? {
        if defOp.value.kind.Shared? {
          return true, inputs, creations, deps;
        }
        if defOp.value.kind.Creation? {
          creations := creations + {defOp.value};
          return true, inputs, creations, deps;
        }
      }
      isConst := false;
    }

    method ProcessOp(k: nat)
      requires Valid(k) && k < |func.ops|
      modifies this
      ensures Valid(k + 1)
    {
      hide Good, Ordered, FromShared, EndsInTerminator, AllConst, Moves, Linked, Forest, Balanced, HoistedAmong, Extended, Placed, Gathered, Turn;
      var op := func.ops[k];
      ghost var g := Tables();
      HoistedStep(func, k);
      SharedStep(func.ops, k);
      if op.kind.Terminator? || op.kind.Creation? {
        return;
      }
      if op.kind.Shared? {
        sharedOps := sharedOps + [op];
        return;
      }
      var ok, deps, creations, inputs := ClassifyOperands(op, k);
      if !ok {
        return;
      }
      HoistedWhenReached(func, k);
      TurnComes(func, k);
      GoodFacts(func, HoistedAmong(func, k), g, op, deps, creations, inputs);
      var target, top := ChooseTarget(deps);
      ghost var b := Tables();
      RecordOp(op, creations, inputs, target);
      SameExtended(g, b, op, creations, inputs, target, parent, rank, nextSubgraphId);
      ExtendedIsGood(func, HoistedAmong(func, k), g, op, deps, creations, inputs, target, parent, rank, nextSubgraphId, top);
    }

    // Checks the operands one by one, and stops at the first that is not constant.
    method ClassifyOperands(op: Op, ghost k: nat) returns (ok: bool, deps: set<nat>, creations: set<Op>, inputs: set<nat>)
      requires Valid(k) && k < |func.ops| && op == func.ops[k] && op.kind.Ordinary?
      ensures ok <==> AllConst(func, HoistedAmong(func, k), op)
      ensures ok ==> Gathered(func, op, Tables(), deps, creations, inputs)
    {
      hide Good, Ordered, FromShared, EndsInTerminator, IsConst, HoistedAmong, GatheredFrom;
      deps, creations, inputs := {}, {}, {};
      GatheredNothing(func, Tables());
      for i := 0 to |op.operands|
        invariant forall j :: 0 <= j < i ==> IsConst(func, HoistedAmong(func, k), op.operands[j])
        invariant GatheredFrom(func, op.operands[..i], Tables(), deps, creations, inputs)
      {
        var before := (deps, creations, inputs);
        ok, inputs, creations, deps := OperandIsConstEval(op.operands[i], inputs, creations, deps, k);
        if !ok {
          assert op.operands[i] in op.operands;
          return;
        }
        GatheredOne(func, HoistedAmong(func, k), op.operands[..i], Tables(), before.0, before.1, before.2, op.operands[i], deps, creations, inputs);
        assert op.operands[..i + 1] == op.operands[..i] + [op.operands[i]];
      }
      ok := true;
      assert op.operands[..|op.operands|] == op.operands;
      GatheredAll(func, op, Tables(), deps, creations, inputs);
    }

    // The groups and their parameters, read off the roots, in no particular order.
    method GetAnalysisResults() returns (subgraphs: seq<Subgraph>, shared: seq<Op>)
      requires Valid(|func.ops|)
      modifies this`parent, this`rank
      ensures IsPartition(func, subgraphs)
      ensures shared == Filter(SharedOnly(), func.ops)
    {
      hide Good, WellFormed, Filter, IsPartition, Sets, SameRoots, Forest, Balanced, Collected, HoistedAmong, NoCalls;
      ghost var g := Tables();
      GoodTables(func, HoistedAmong(func, |func.ops|), g);
      var rootToOps, rootToParams := CollectByRoot(g);
      var pending := rootToOps.Keys;
      ghost var roots: seq<nat> := [];
      subgraphs := [];
      while pending != {}
        invariant |roots| == |subgraphs| && Distinct(roots)
        invariant forall r :: r in rootToOps <==> r in roots || r in pending
        invariant forall r :: r in roots ==> r !in pending
        invariant forall i :: 0 <= i < |roots| ==> subgraphs[i] == AtRootOf(rootToOps, rootToParams, roots[i])
      {
        var root :| root in pending;
        var params := ParamsAt(rootToParams, root);
        subgraphs := subgraphs + [Subgraph(params, rootToOps[root])];
        roots, pending := roots + [root], pending - {root};
      }
      shared := sharedOps;
      assert func.ops[..|func.ops|] == func.ops;
      PartitionByRoots(func, g, rootToOps, rootToParams, roots, subgraphs);
    }

    method FindAgain(id: nat, ghost g: Groups) returns (root: nat)
      requires rank == g.rank && SameRoots(g.parent, rank, parent) && Forest(parent, rank) && Balanced(parent, rank) && id in g.parent
      modifies this`parent, this`rank
      ensures SameRoots(g.parent, g.rank, parent) && Forest(parent, rank) && Balanced(parent, rank) && rank == g.rank
      ensures Forest(g.parent, g.rank) && root == Root(g.parent, g.rank, id)
    {
      hide SameRoots, Forest, Balanced, Root;
      ghost var p := parent;
      SameRootsFacts(g.parent, g.rank, parent, id);
      root := FindRoot(id);
      SameRootsDomain(p, rank, parent);
      SameRootsTwice(g.parent, p, parent, rank);
    }

    method CollectOp(op: Op, opsBefore: map<nat, seq<Op>>, paramsBefore: map<nat, set<nat>>, ghost g: Groups, ghost ops: seq<Op>)
        returns (rootToOps: map<nat, seq<Op>>, rootToParams: map<nat, set<nat>>)
      requires Sets(g) && opToSubgraphMap == g.ops && subgraphParams == g.params && Collected(g, ops, opsBefore, paramsBefore)
      requires rank == g.rank && SameRoots(g.parent, rank, parent) && Forest(parent, rank) && Balanced(parent, rank)
      modifies this`parent, this`rank
      ensures Collected(g, ops + [op], rootToOps, rootToParams)
      ensures rank == g.rank && SameRoots(g.parent, rank, parent) && Forest(parent, rank) && Balanced(parent, rank)
    {
      hide Collected, Sets, SameRoots, Forest, Balanced, Root, OpsAt, ParamsAt;
      rootToOps, rootToParams := opsBefore, paramsBefore;
      if op.id !in opToSubgraphMap {
        CollectedSkip(g, ops, op, rootToOps, rootToParams);
        return;
      }
      var id := opToSubgraphMap[op.id];
      TrackedId(g, op.id);
      var root := FindAgain(id, g);
      rootToOps := rootToOps[root := OpsAt(rootToOps, root) + [op]];
      if id in subgraphParams {
        rootToParams := rootToParams[root := ParamsAt(rootToParams, root) + subgraphParams[id]];
      }
      CollectedOne(g, ops, op, opsBefore, paramsBefore, root, rootToOps, rootToParams);
    }

    // Collects the ops of the maps, in the order of the body, and the parameters under their roots.
    method CollectByRoot(ghost g: Groups) returns (rootToOps: map<nat, seq<Op>>, rootToParams: map<nat, set<nat>>)
      requires Sets(g) && opToSubgraphMap == g.ops && subgraphParams == g.params
      requires rank == g.rank && SameRoots(g.parent, rank, parent) && Forest(parent, rank) && Balanced(parent, rank)
      modifies this`parent, this`rank
      ensures Collected(g, func.ops, rootToOps, rootToParams)
    {
      hide Collected, Sets, SameRoots, Forest, Balanced;
      rootToOps, rootToParams := map[], map[];
      CollectedNone(g);
      for i := 0 to |func.ops|
        invariant rank == g.rank && SameRoots(g.parent, rank, parent) && Forest(parent, rank) && Balanced(parent, rank)
        invariant Collected(g, func.ops[..i], rootToOps, rootToParams)
      {
        assert func.ops[..i + 1] == func.ops[..i] + [func.ops[i]];
        rootToOps, rootToParams := CollectOp(func.ops[i], rootToOps, rootToParams, g, func.ops[..i]);
      }
      assert func.ops[..|func.ops|] == func.ops;
    }

    // Maps an op's results to a subgraph.
    method RecordResults(op: Op, target: nat)
      modifies this`valueToSubgraphMap
      ensures valueToSubgraphMap == AddAll(old(valueToSubgraphMap), Results(op), target)
    {
      ghost var before := valueToSubgraphMap;
      for r := 0 to op.results
        invariant valueToSubgraphMap == AddAll(before, FirstResults(op, r), target)
      {
        AddAllOne(before, FirstResults(op, r), target, Res(op.id, r));
        valueToSubgraphMap := valueToSubgraphMap[Res(op.id, r) := target];
        assert FirstResults(op, r + 1) == FirstResults(op, r) + {Res(op.id, r)};
      }
      assert FirstResults(op, op.results) == Results(op);
    }

    // Maps creation ops and their results to a subgraph.
    method RecordCreations(creationOps: set<Op>, target: nat)
      modifies this`opToSubgraphMap, this`valueToSubgraphMap
      ensures opToSubgraphMap == AddAll(old(opToSubgraphMap), Ids(creationOps), target)
      ensures valueToSubgraphMap == AddAll(old(valueToSubgraphMap), ResultsOf(creationOps), target)
    {
      hide AddAll, ResultsOf, Ids, Results;
      ghost var ops, values := opToSubgraphMap, valueToSubgraphMap;
      var rest := creationOps;
      ghost var done: set<Op> := {};
      RecordedNone(ops, target);
      RecordedNone(values, target);
      while rest != {}
        invariant done + rest == creationOps && done !! rest
        invariant opToSubgraphMap == AddAll(ops, Ids(done), target)
        invariant valueToSubgraphMap == AddAll(values, ResultsOf(done), target)
      {
        var c :| c in rest;
        AddAllOne(ops, Ids(done), target, c.id);
        opToSubgraphMap := opToSubgraphMap[c.id := target];
        RecordResults(c, target);
        AddAllTwice(values, ResultsOf(done), Results(c), target);
        RecordedMore(done, c);
        done, rest := done + {c}, rest - {c};
      }
      assert done == creationOps;
    }

    // Enters a hoisted op, and the creation ops it is first to read, into the maps.
    method RecordOp(op: Op, creationOps: set<Op>, inputParams: set<nat>, target: nat)
      modifies this`opToSubgraphMap, this`valueToSubgraphMap, this`subgraphParams
      ensures Tables() == Extended(old(Tables()), op, creationOps, inputParams, target, parent, rank, nextSubgraphId)
    {
      hide AddAll, ResultsOf, Ids, Results;
      ghost var ops := opToSubgraphMap;
      opToSubgraphMap := opToSubgraphMap[op.id := target];
      RecordCreations(creationOps, target);
      AddAllSwapped(ops, Ids(creationOps), op.id, target);
      if inputParams != {} {
        var params := if target in subgraphParams then subgraphParams[target] else {};
        subgraphParams := subgraphParams[target := params + inputParams];
      }
      RecordResults(op, target);
    }
  }

  // Compressing the path from `id` once the roots above it have been found.
  lemma Compressed(p: map<nat, nat>, q: map<nat, nat>, rank: map<nat, nat>, id: nat, top: nat)
    requires SameRoots(p, rank, q) && Balanced(q, rank) && id in p && top == Root(p, rank, id)
    ensures SameRoots(p, rank, q[id := top]) && Balanced(q[id := top], rank)
  {
    hide Forest, Root, Balanced, SameRoots;
    SameRootsFacts(p, rank, q, id);
    CompressionIsBalanced(q, rank, id);
    var compressed := q[id := top];
    forall z | z in p
      ensures Root(compressed, rank, z) == Root(p, rank, z)
    {
      SameRootsFacts(p, rank, q, z);
      CompressionKeepsRoots(q, rank, id, z);
    }
    RelinkKeys(q, rank, id, top);
    SameRootsFrom(p, rank, compressed);
  }

  lemma SameRootsFrom(p: map<nat, nat>, rank: map<nat, nat>, q: map<nat, nat>)
    requires Forest(p, rank) && Forest(q, rank) && q.Keys == p.Keys
    requires forall z :: z in p ==> Root(q, rank, z) == Root(p, rank, z)
    ensures SameRoots(p, rank, q)
  {
    hide Forest, Root;
  }

  lemma AlreadyRoot(p: map<nat, nat>, rank: map<nat, nat>, id: nat)
    requires Forest(p, rank) && id in p && p[id] == id
    ensures SameRoots(p, rank, p) && Root(p, rank, id) == id
  {}

  lemma SameRootsTwice(p: map<nat, nat>, q: map<nat, nat>, r: map<nat, nat>, rank: map<nat, nat>)
    requires SameRoots(p, rank, q) && SameRoots(q, rank, r)
    ensures SameRoots(p, rank, r)
  {
    hide Forest, Root;
  }

  lemma SameRootsFacts(p: map<nat, nat>, rank: map<nat, nat>, q: map<nat, nat>, x: nat)
    requires SameRoots(p, rank, q) && x in p
    ensures Forest(p, rank) && Forest(q, rank) && q.Keys == p.Keys
    ensures Root(q, rank, x) == Root(p, rank, x) && Root(p, rank, x) in rank && Root(p, rank, x) in p
    ensures Root(p, rank, x) in q && q[Root(p, rank, x)] == Root(p, rank, x)
  {
    hide Forest, Root;
    SameDomain(p, rank, Root(p, rank, x));
    assert q[Root(q, rank, x)] == Root(q, rank, x);
  }

  lemma MergedAlready(p: map<nat, nat>, q: map<nat, nat>, rank: map<nat, nat>, root: nat)
    requires SameRoots(p, rank, q) && Balanced(q, rank)
    ensures MergedBy(p, rank, q, rank, {root, root}, root)
  {
    hide Forest, Root, Balanced, SameRoots;
    SameRootsDomain(p, rank, q);
    forall z | z in p
      ensures z in q && Root(q, rank, z) == Root(p, rank, z)
    {
      SameRootsFacts(p, rank, q, z);
    }
  }

  lemma SameRootsDomain(p: map<nat, nat>, rank: map<nat, nat>, q: map<nat, nat>)
    requires SameRoots(p, rank, q)
    ensures Forest(p, rank) && Forest(q, rank) && q.Keys == p.Keys
  {
    hide Forest, Root;
  }

  lemma MergedAtLink(p: map<nat, nat>, rank: map<nat, nat>, r: map<nat, nat>, a: nat, b: nat, z: nat)
    requires SameRoots(p, rank, r) && Forest(p, rank) && Forest(r, rank) && z in p
    requires a in r && b in r && a in rank && b in rank && r[a] == a && r[b] == b && a != b
    ensures Forest(LinkedParent(r, rank, a, b), LinkedRank(rank, a, b)) && z in LinkedParent(r, rank, a, b)
    ensures Root(LinkedParent(r, rank, a, b), LinkedRank(rank, a, b), z)
            == if Root(p, rank, z) in {a, b} then Top(rank, a, b) else Root(p, rank, z)
  {
    hide Forest, Root, LinkedParent, LinkedRank, SameRoots;
    SameRootsFacts(p, rank, r, z);
    UnionMerges(r, rank, a, b, z);
  }

  lemma MergedByLink(p: map<nat, nat>, rank: map<nat, nat>, r: map<nat, nat>, a: nat, b: nat)
    requires SameRoots(p, rank, r) && Forest(r, rank) && Balanced(r, rank)
    requires a in r && b in r && a in rank && b in rank && r[a] == a && r[b] == b && a != b
    ensures MergedBy(p, rank, LinkedParent(r, rank, a, b), LinkedRank(rank, a, b), {a, b}, Top(rank, a, b))
    ensures LinkedParent(r, rank, a, b).Keys == p.Keys
  {
    hide Forest, Balanced, Root, LinkedParent, LinkedRank, MergedBy, SameRoots;
    SameRootsDomain(p, rank, r);
    UnionIsBalanced(r, rank, a, b);
    LinkedKeys(r, rank, a, b);
    var q, l, merged, top := LinkedParent(r, rank, a, b), LinkedRank(rank, a, b), {a, b}, Top(rank, a, b);
    forall z | z in p
      ensures z in q && Root(q, l, z) == if Root(p, rank, z) in merged then top else Root(p, rank, z)
    {
      MergedAtLink(p, rank, r, a, b, z);
    }
    MergedFrom(p, rank, q, l, merged, top);
  }

  lemma RootsOfOne(g: Groups, d: nat)
    requires Forest(g.parent, g.rank) && d in g.parent
    ensures RootsOf(g, {d}) == {Root(g.parent, g.rank, d)}
  {
    hide Forest, Root;
  }

  lemma RootsOfMore(g: Groups, deps: set<nat>, d: nat)
    requires Forest(g.parent, g.rank) && deps <= g.parent.Keys && d in g.parent
    ensures deps + {d} <= g.parent.Keys
    ensures RootsOf(g, deps + {d}) == RootsOf(g, deps) + {Root(g.parent, g.rank, d)}
  {
    hide Forest, Root;
  }

  lemma SetsBelow(g: Groups)
    requires Sets(g)
    ensures Forest(g.parent, g.rank) && Balanced(g.parent, g.rank)
    ensures forall x: nat :: x in g.parent <==> x < g.next
  {
    hide Forest, Balanced;
  }

  lemma FreshIsPlaced(g: Groups, target: nat)
    requires Sets(g) && target == g.next
    ensures Placed(g, {}, target, g.parent[target := target], g.rank[target := 0], target)
  {
    hide Forest, Root, Balanced;
    FreshIsBalanced(g.parent, g.rank, target);
    FreshIsRoot(g.parent, g.rank, target);
    assert RootsOf(g, {}) == {};
    forall z | z in g.parent
      ensures Root(g.parent[target := target], g.rank[target := 0], z) == Root(g.parent, g.rank, z)
    {
      FreshKeepsRoots(g.parent, g.rank, target, z);
    }
  }

  lemma OneIsPlaced(g: Groups, target: nat)
    requires Sets(g) && target in g.parent
    ensures Placed(g, {target}, target, g.parent, g.rank, Root(g.parent, g.rank, target))
  {
    hide Forest, Root, Balanced;
    RootsOfOne(g, target);
  }

  lemma PlacedForest(g: Groups, deps: set<nat>, target: nat, parent: map<nat, nat>, rank: map<nat, nat>, top: nat)
    requires Placed(g, deps, target, parent, rank, top)
    ensures Forest(parent, rank) && Balanced(parent, rank) && target in parent && Root(parent, rank, target) == top
  {
    hide Forest, Root, Balanced;
  }

  lemma MergedAt(p: map<nat, nat>, k: map<nat, nat>, q: map<nat, nat>, l: map<nat, nat>, merged: set<nat>, top: nat, z: nat)
    requires MergedBy(p, k, q, l, merged, top) && z in p
    ensures Forest(p, k) && Forest(q, l) && z in q
    ensures Root(q, l, z) == if Root(p, k, z) in merged then top else Root(p, k, z)
  {
    hide Forest, Root, Balanced;
  }

  // Merging twice: first the classes in `merged` into `top`, then that class and the one of `s`.
  lemma MergedTwice(gp: map<nat, nat>, gk: map<nat, nat>, p: map<nat, nat>, k: map<nat, nat>, q: map<nat, nat>, l: map<nat, nat>, merged: set<nat>, top: nat, s: nat, joint: nat, z: nat)
    requires MergedBy(gp, gk, p, k, merged, top) && top in merged && s in gp && s in p && z in gp && z in p
    requires Forest(gp, gk) && Forest(p, k) && Forest(q, l) && MergedBy(p, k, q, l, {top, Root(p, k, s)}, joint)
    ensures z in q
    ensures Root(q, l, z) == if Root(gp, gk, z) in merged + {Root(gp, gk, s)} then joint else Root(gp, gk, z)
  {
    hide Forest, Root, Balanced, MergedBy;
    MergedAt(gp, gk, p, k, merged, top, z);
    MergedAt(gp, gk, p, k, merged, top, s);
    MergedAt(p, k, q, l, {top, Root(p, k, s)}, joint, z);
  }

  lemma JointKnown(gp: map<nat, nat>, gk: map<nat, nat>, p: map<nat, nat>, k: map<nat, nat>, q: map<nat, nat>, l: map<nat, nat>, merged: set<nat>, top: nat, s: nat, joint: nat)
    requires MergedBy(gp, gk, p, k, merged, top) && top in merged && s in gp && s in p && p.Keys == gp.Keys
    requires Forest(gp, gk) && Forest(p, k) && MergedBy(p, k, q, l, {top, Root(p, k, s)}, joint)
    ensures joint in merged + {Root(gp, gk, s)} || joint !in gp
  {
    hide Forest, Root, Balanced, MergedBy;
    JointIsFresh(p, k, q, l, {top, Root(p, k, s)}, joint);
    JointIsFresh(gp, gk, p, k, merged, top);
    MergedAt(gp, gk, p, k, merged, top, s);
  }

  lemma JointIsFresh(p: map<nat, nat>, k: map<nat, nat>, q: map<nat, nat>, l: map<nat, nat>, merged: set<nat>, top: nat)
    requires MergedBy(p, k, q, l, merged, top)
    ensures top in merged || top !in p
  {
    hide Forest, Root, Balanced;
  }

  lemma PlacedMore(g: Groups, deps: set<nat>, target: nat, p: map<nat, nat>, k: map<nat, nat>, top: nat, q: map<nat, nat>, l: map<nat, nat>, s: nat, joint: nat)
    requires Placed(g, deps, target, p, k, top) && target in deps && s in g.parent && p.Keys == g.parent.Keys
    requires Forest(p, k) && s in p && MergedBy(p, k, q, l, {Root(p, k, target), Root(p, k, s)}, joint)
    ensures Placed(g, deps + {s}, target, q, l, joint)
  {
    hide Forest, Root, Balanced, RootsOf, MergedBy;
    RootsOfMore(g, deps, s);
    var before := RootsOf(g, deps);
    TopIsMerged(g, deps, target, p, k, top);
    MergedForests(p, k, q, l, {Root(p, k, target), Root(p, k, s)}, joint);
    JointKnown(g.parent, g.rank, p, k, q, l, before, top, s, joint);
    var merged := before + {Root(g.parent, g.rank, s)};
    forall z | z in g.parent
      ensures z in q && Root(q, l, z) == if Root(g.parent, g.rank, z) in merged then joint else Root(g.parent, g.rank, z)
    {
      MergedTwice(g.parent, g.rank, p, k, q, l, before, top, s, joint, z);
    }
    TargetIsMerged(g, deps, target);
    MergedFrom(g.parent, g.rank, q, l, merged, joint);
    PlacedIs(g, deps + {s}, merged, target, q, l, joint);
  }

  lemma PlacedIs(g: Groups, deps: set<nat>, merged: set<nat>, target: nat, q: map<nat, nat>, l: map<nat, nat>, top: nat)
    requires Sets(g) && Forest(g.parent, g.rank) && deps <= g.parent.Keys && RootsOf(g, deps) == merged
    requires Forest(q, l) && target in q && Root(q, l, target) == top && MergedBy(g.parent, g.rank, q, l, merged, top)
    ensures Placed(g, deps, target, q, l, top)
  {
    hide Forest, Root, Balanced, RootsOf, MergedBy, Sets;
  }

  lemma MergedForests(p: map<nat, nat>, k: map<nat, nat>, q: map<nat, nat>, l: map<nat, nat>, merged: set<nat>, top: nat)
    requires MergedBy(p, k, q, l, merged, top)
    ensures Forest(p, k) && Forest(q, l) && Balanced(q, l)
  {
    hide Forest, Root, Balanced;
  }

  lemma MergedFrom(p: map<nat, nat>, k: map<nat, nat>, q: map<nat, nat>, l: map<nat, nat>, merged: set<nat>, top: nat)
    requires Forest(p, k) && Forest(q, l) && Balanced(q, l) && (top in merged || top !in p)
    requires forall z :: z in p ==> z in q && Root(q, l, z) == if Root(p, k, z) in merged then top else Root(p, k, z)
    ensures MergedBy(p, k, q, l, merged, top)
  {
    hide Forest, Root, Balanced;
  }

  lemma TopIsMerged(g: Groups, deps: set<nat>, target: nat, p: map<nat, nat>, k: map<nat, nat>, top: nat)
    requires Placed(g, deps, target, p, k, top) && target in deps && p.Keys == g.parent.Keys
    ensures top in RootsOf(g, deps)
  {
    hide Forest, Balanced, RootsOf;
    MergedRootKnown(p, k, target);
  }

  lemma TargetIsMerged(g: Groups, deps: set<nat>, target: nat)
    requires Forest(g.parent, g.rank) && deps <= g.parent.Keys && target in deps
    ensures Root(g.parent, g.rank, target) in RootsOf(g, deps)
  {
    hide Forest, Root;
  }

  lemma MergedRootKnown(p: map<nat, nat>, k: map<nat, nat>, x: nat)
    requires Forest(p, k) && x in p
    ensures Root(p, k, x) in p
  {}

  lemma PlacedAtRoot(g: Groups, deps: set<nat>, target: nat, p: map<nat, nat>, rank: map<nat, nat>, top: nat, q: map<nat, nat>)
    requires Placed(g, deps, target, p, rank, top) && SameRoots(p, rank, q) && Balanced(q, rank)
    ensures Placed(g, deps, top, q, rank, top)
  {
    hide Forest, Balanced, RootsOf, Root;
    SameRootsFacts(p, rank, q, target);
    RootOfRoot(q, rank, top);
  }

  function FirstResults(op: Op, n: nat): set<Value> {
    set r: nat | r < n :: Res(op.id, r)
  }

  lemma RecordedNone<K>(m: map<K, nat>, t: nat)
    ensures Ids({}) == {} && ResultsOf({}) == {} && AddAll(m, {}, t) == m
  {}

  lemma AddAllOne<K>(m: map<K, nat>, keys: set<K>, t: nat, x: K)
    ensures AddAll(m, keys, t)[x := t] == AddAll(m, keys + {x}, t)
  {}

  lemma AddAllTwice<K>(m: map<K, nat>, keys: set<K>, more: set<K>, t: nat)
    ensures AddAll(AddAll(m, keys, t), more, t) == AddAll(m, keys + more, t)
  {}

  lemma AddAllSwapped<K>(m: map<K, nat>, keys: set<K>, x: K, t: nat)
    ensures AddAll(m[x := t], keys, t) == AddAll(m, keys + {x}, t)
  {}

  lemma RecordedMore(done: set<Op>, c: Op)
    ensures Ids(done + {c}) == Ids(done) + {c.id}
    ensures ResultsOf(done + {c}) == ResultsOf(done) + Results(c)
  {}

  lemma OneDefinition(f: Func, v: Value, d: Option<Op>)
    requires Ordered(f.args, f.ops)
    requires d.Some? ==> d.value in f.ops && Defines(d.value, v)
    requires d.None? ==> forall op :: op in f.ops ==> !Defines(op, v)
    ensures forall c :: c in f.ops && Defines(c, v) <==> d == Some(c)
  {
    hide Ordered;
    forall c | c in f.ops && Defines(c, v)
      ensures d == Some(c)
    {
      UniqueOp(f.args, f.ops, c, d.value);
    }
  }

  lemma HoistedStep(f: Func, k: nat)
    requires k < |f.ops|
    ensures HoistedAmong(f, k + 1) ==
      if f.ops[k].kind.Ordinary? && AllConst(f, HoistedAmong(f, k), f.ops[k]) then HoistedAmong(f, k) + {f.ops[k].id} else HoistedAmong(f, k)
  {}

  lemma SharedStep(ops: seq<Op>, k: nat)
    requires k < |ops|
    ensures Filter(SharedOnly(), ops[..k + 1]) == Filter(SharedOnly(), ops[..k]) + (if ops[k].kind.Shared? then [ops[k]] else [])
  {
    assert ops[..k + 1] == ops[..k] + [ops[k]];
    FilterSnoc(SharedOnly(), ops[..k], ops[k]);
  }

  lemma GoodFacts(f: Func, h: set<nat>, g: Groups, op: Op, deps: set<nat>, creations: set<Op>, inputs: set<nat>)
    requires Good(f, h, g) && Gathered(f, op, g, deps, creations, inputs)
    ensures Sets(g) && deps <= g.parent.Keys
  {
    hide Forest, Balanced, LinksAgree, SameIsConnected, ParamsExact, Moves;
  }

  // What an op adds does not depend on the union-find before.
  lemma SameExtended(g: Groups, b: Groups, op: Op, creations: set<Op>, inputs: set<nat>, target: nat, parent: map<nat, nat>, rank: map<nat, nat>, next: nat)
    requires b.values == g.values && b.ops == g.ops && b.params == g.params
    ensures Extended(b, op, creations, inputs, target, parent, rank, next) == Extended(g, op, creations, inputs, target, parent, rank, next)
  {}

  lemma GatheredNothing(f: Func, g: Groups)
    ensures GatheredFrom(f, [], g, {}, {}, {})
  {}

  lemma GatheredOne(f: Func, h: set<nat>, vs: seq<Value>, g: Groups, deps0: set<nat>, creations0: set<Op>, inputs0: set<nat>, v: Value, deps: set<nat>, creations: set<Op>, inputs: set<nat>)
    requires Good(f, h, g) && GatheredFrom(f, vs, g, deps0, creations0, inputs0)
    requires v.Arg? ==> inputs == inputs0 + {v.index} && creations == creations0 && deps == deps0
    requires v.Res? ==> inputs == inputs0
    requires v.Res? ==> deps == if v in g.values then deps0 + {g.values[v]} else deps0
    requires v.Res? ==> forall c :: c in creations <==>
      c in creations0 || (c in f.ops && c.kind.Creation? && Defines(c, v) && v !in g.values)
    ensures GatheredFrom(f, vs + [v], g, deps, creations, inputs)
  {
    hide Sets, LinksAgree, SameIsConnected, ParamsExact, Moves;
    GatheredDeps(vs, g, deps0, v, deps);
    forall c
      ensures c in creations <==> c in f.ops && c.kind.Creation? && c.id !in g.ops && exists u :: u in vs + [v] && Defines(c, u)
    {
      if c in f.ops && Defines(c, v) {
        assert v in vs + [v];
        assert v in g.values <==> c.id in g.ops;
      }
      if u :| u in vs && Defines(c, u) {
        assert u in vs + [v];
      }
    }
  }

  lemma GatheredDeps(vs: seq<Value>, g: Groups, deps0: set<nat>, v: Value, deps: set<nat>)
    requires forall d :: d in deps0 <==> exists u :: u in vs && u in g.values && g.values[u] == d
    requires deps == if v in g.values then deps0 + {g.values[v]} else deps0
    ensures forall d :: d in deps <==> exists u :: u in vs + [v] && u in g.values && g.values[u] == d
  {
    forall d | d in deps
      ensures exists u :: u in vs + [v] && u in g.values && g.values[u] == d
    {
      if d in deps0 {
        var u :| u in vs && u in g.values && g.values[u] == d;
        assert u in vs + [v];
      } else {
        assert v in vs + [v];
      }
    }
  }

  lemma GatheredAll(f: Func, op: Op, g: Groups, deps: set<nat>, creations: set<Op>, inputs: set<nat>)
    requires GatheredFrom(f, op.operands, g, deps, creations, inputs)
    ensures Gathered(f, op, g, deps, creations, inputs)
  {}

  function OpsAt(rootToOps: map<nat, seq<Op>>, r: nat): seq<Op> {
    if r in rootToOps then rootToOps[r] else []
  }

  function ParamsAt(rootToParams: map<nat, set<nat>>, r: nat): set<nat> {
    if r in rootToParams then rootToParams[r] else {}
  }

  function AtRootOf(rootToOps: map<nat, seq<Op>>, rootToParams: map<nat, set<nat>>, r: nat): Subgraph {
    Subgraph(ParamsAt(rootToParams, r), OpsAt(rootToOps, r))
  }

  ghost predicate HasLabel(g: Groups, r: nat, o: nat) {
    Forest(g.parent, g.rank) && o in g.ops && g.ops[o] in g.parent && Label(g, o) == r
  }

  ghost function AtRoot(g: Groups, r: nat): Op -> bool {
    (op: Op) => HasLabel(g, r, op.id)
  }

  ghost predicate ParamAt(g: Groups, r: nat, p: nat, op: Op) {
    HasLabel(g, r, op.id) && g.ops[op.id] in g.params && p in g.params[g.ops[op.id]]
  }

  ghost predicate ReadAt(g: Groups, ops: seq<Op>, r: nat, p: nat) {
    exists op :: op in ops && ParamAt(g, r, p, op)
  }

  // The ops of `ops` and their parameters, by the root of their id.
  ghost predicate Collected(g: Groups, ops: seq<Op>, rootToOps: map<nat, seq<Op>>, rootToParams: map<nat, set<nat>>) {
    && (forall r: nat :: OpsAt(rootToOps, r) == Filter(AtRoot(g, r), ops))
    && (forall r: nat :: r in rootToOps ==> rootToOps[r] != [])
    && (forall r: nat, p: nat :: p in ParamsAt(rootToParams, r) <==> ReadAt(g, ops, r, p))
  }

  lemma GoodTables(f: Func, h: set<nat>, g: Groups)
    requires Good(f, h, g)
    ensures Sets(g) && Forest(g.parent, g.rank) && Balanced(g.parent, g.rank) && SameRoots(g.parent, g.rank, g.parent)
  {}

  lemma TrackedId(g: Groups, o: nat)
    requires Sets(g) && o in g.ops
    ensures g.ops[o] in g.parent && HasLabel(g, Root(g.parent, g.rank, g.ops[o]), o)
  {
    hide Forest, Balanced, Root;
  }

  lemma CollectedNone(g: Groups)
    ensures Collected(g, [], map[], map[])
  {}

  lemma NoLabel(g: Groups, r: nat, op: Op)
    requires op.id !in g.ops
    ensures !AtRoot(g, r)(op)
  {}

  lemma CollectedSkip(g: Groups, ops: seq<Op>, op: Op, rootToOps: map<nat, seq<Op>>, rootToParams: map<nat, set<nat>>)
    requires Collected(g, ops, rootToOps, rootToParams) && op.id !in g.ops
    ensures Collected(g, ops + [op], rootToOps, rootToParams)
  {
    hide Filter, ReadAt, HasLabel;
    forall r: nat
      ensures Filter(AtRoot(g, r), ops + [op]) == Filter(AtRoot(g, r), ops)
    {
      FilterSnoc(AtRoot(g, r), ops, op);
      NoLabel(g, r, op);
    }
    forall r: nat, p: nat
      ensures ReadAt(g, ops + [op], r, p) <==> ReadAt(g, ops, r, p)
    {
      ReadSkip(g, ops, op, r, p);
    }
  }

  lemma ReadSkip(g: Groups, ops: seq<Op>, op: Op, r: nat, p: nat)
    requires op.id !in g.ops
    ensures ReadAt(g, ops + [op], r, p) <==> ReadAt(g, ops, r, p)
  {
    hide Label, Forest;
    if x :| x in ops && ParamAt(g, r, p, x) {
      assert x in ops + [op];
    }
  }

  lemma CollectedOps(g: Groups, ops: seq<Op>, op: Op, before: map<nat, seq<Op>>, root: nat, rootToOps: map<nat, seq<Op>>, r: nat)
    requires OpsAt(before, r) == Filter(AtRoot(g, r), ops)
    requires HasLabel(g, root, op.id) && rootToOps == before[root := OpsAt(before, root) + [op]]
    ensures OpsAt(rootToOps, r) == Filter(AtRoot(g, r), ops + [op])
  {
    hide Filter, Label;
    FilterSnoc(AtRoot(g, r), ops, op);
  }

  lemma CollectedParams(g: Groups, ops: seq<Op>, op: Op, before: map<nat, set<nat>>, root: nat, rootToParams: map<nat, set<nat>>, r: nat, p: nat)
    requires p in ParamsAt(before, r) <==> ReadAt(g, ops, r, p)
    requires HasLabel(g, root, op.id)
    requires rootToParams == if g.ops[op.id] in g.params
      then before[root := ParamsAt(before, root) + g.params[g.ops[op.id]]] else before
    ensures p in ParamsAt(rootToParams, r) <==> ReadAt(g, ops + [op], r, p)
  {
    hide Filter, Label, ReadAt, Forest;
    ReadAtNext(g, ops, op, r, p);
  }

  lemma ReadAtNext(g: Groups, ops: seq<Op>, op: Op, r: nat, p: nat)
    ensures ReadAt(g, ops + [op], r, p) <==> ReadAt(g, ops, r, p) || ParamAt(g, r, p, op)
  {
    hide ParamAt;
    if x :| x in ops && ParamAt(g, r, p, x) {
      assert x in ops + [op];
    }
    if ParamAt(g, r, p, op) {
      assert op in ops + [op];
    }
  }

  lemma CollectedOne(g: Groups, ops: seq<Op>, op: Op, opsBefore: map<nat, seq<Op>>, paramsBefore: map<nat, set<nat>>, root: nat, rootToOps: map<nat, seq<Op>>, rootToParams: map<nat, set<nat>>)
    requires Collected(g, ops, opsBefore, paramsBefore) && HasLabel(g, root, op.id)
    requires rootToOps == opsBefore[root := OpsAt(opsBefore, root) + [op]]
    requires rootToParams == if g.ops[op.id] in g.params
      then paramsBefore[root := ParamsAt(paramsBefore, root) + g.params[g.ops[op.id]]] else paramsBefore
    ensures Collected(g, ops + [op], rootToOps, rootToParams)
  {
    hide Filter, HasLabel, ReadAt, OpsAt, ParamsAt;
    forall r: nat
      ensures OpsAt(rootToOps, r) == Filter(AtRoot(g, r), ops + [op])
    {
      CollectedOps(g, ops, op, opsBefore, root, rootToOps, r);
    }
    forall r: nat, p: nat
      ensures p in ParamsAt(rootToParams, r) <==> ReadAt(g, ops + [op], r, p)
    {
      CollectedParams(g, ops, op, paramsBefore, root, rootToParams, r, p);
    }
  }

  // The subgraph found at a root: the ops with that label, and what they read.
  ghost predicate AtLabel(f: Func, g: Groups, r: nat, s: Subgraph) {
    && s.ops != [] && s.ops == Filter(AtRoot(g, r), f.ops)
    && (forall x :: x in s.ops <==> x in f.ops && HasLabel(g, r, x.id))
    && (forall p: nat :: p in s.inputParameters <==> ReadAt(g, f.ops, r, p))
  }

  lemma CollectedAtLabel(f: Func, g: Groups, rootToOps: map<nat, seq<Op>>, rootToParams: map<nat, set<nat>>, r: nat)
    requires Collected(g, f.ops, rootToOps, rootToParams) && r in rootToOps
    ensures AtLabel(f, g, r, AtRootOf(rootToOps, rootToParams, r))
  {
    hide Filter, HasLabel, ParamAt;
    var s := AtRootOf(rootToOps, rootToParams, r);
    assert s.ops == Filter(AtRoot(g, r), f.ops);
    forall x
      ensures x in s.ops <==> x in f.ops && HasLabel(g, r, x.id)
    {
      FilterMembers(AtRoot(g, r), f.ops, x);
    }
  }

  lemma {:induction false} FilterSame(keep: Op -> bool, other: Op -> bool, ops: seq<Op>)
    requires forall op :: op in ops ==> (keep(op) <==> other(op))
    ensures Filter(keep, ops) == Filter(other, ops)
  {
    if ops != [] {
      assert Last(ops) in ops;
      assert forall op :: op in Front(ops) ==> op in ops;
      FilterSame(keep, other, Front(ops));
    }
  }

  lemma SubgraphIsFilter(f: Func, g: Groups, r: nat, s: Subgraph)
    requires WellFormed(f) && AtLabel(f, g, r, s)
    ensures s.ops == Filter(InGroup(GroupOf(s.ops)), f.ops)
  {
    hide Filter, HasLabel, ParamAt, Ordered, EndsInTerminator, FromShared;
    forall op | op in f.ops
      ensures AtRoot(g, r)(op) <==> InGroup(GroupOf(s.ops))(op)
    {
      if op.id in GroupOf(s.ops) {
        var x :| x in s.ops && x.id == op.id;
        UniqueOp(f.args, f.ops, x, op);
      }
    }
    FilterSame(AtRoot(g, r), InGroup(GroupOf(s.ops)), f.ops);
  }

  lemma ConnectedSameLabel(f: Func, g: Groups, a: nat, b: nat)
    requires Good(f, Hoisted(f), g) && a in g.ops && b in g.ops && Connected(f, a, b)
    ensures Label(g, a) == Label(g, b)
  {
    hide Forest, Balanced, Root, SameIsConnected, ParamsExact, Hoisted, Tracks;
    var mark := (o: nat) => if o in g.ops then Label(g, o) else 0;
    var p: seq<nat> :| Walk(f, p) && p[0] == a && Last(p) == b;
    forall x, y | Linked(f, Hoisted(f), x, y)
      ensures mark(x) == mark(y)
    {
      LinkedLater(f, x, y);
    }
    WalkKeepsLabel(f, mark, p);
  }

  lemma LinkedLater(f: Func, x: nat, y: nat)
    requires Linked(f, Hoisted(f), x, y)
    ensures y in Hoisted(f)
  {}

  // Within a subgraph are exactly the ops connected to any of its ops.
  lemma SubgraphIsComponent(f: Func, g: Groups, r: nat, s: Subgraph, x: Op, y: Op)
    requires Good(f, Hoisted(f), g) && AtLabel(f, g, r, s) && x in s.ops && y in f.ops
    ensures y in s.ops <==> Moves(f, Hoisted(f), y) && Connected(f, x.id, y.id)
  {
    hide Forest, Balanced, Root, ParamsExact, Hoisted, Connected, Moves, LinksAgree, ParamAt;
    assert Tracks(f, Hoisted(f), g);
    if y in s.ops {
      assert HasLabel(g, r, x.id) && HasLabel(g, r, y.id);
    } else if Moves(f, Hoisted(f), y) && Connected(f, x.id, y.id) {
      ConnectedSameLabel(f, g, x.id, y.id);
    }
  }

  lemma SubgraphParams(f: Func, g: Groups, r: nat, s: Subgraph, p: nat)
    requires WellFormed(f) && Good(f, Hoisted(f), g) && AtLabel(f, g, r, s)
    ensures p in s.inputParameters <==> ReadsArg(s.ops, p)
  {
    hide Forest, Balanced, Root, Hoisted, LinksAgree, Ordered, EndsInTerminator, SameIsConnected;
    if p in s.inputParameters {
      var op :| op in f.ops && ParamAt(g, r, p, op);
      var x :| x in f.ops && IsReader(Hoisted(f), g, g.ops[op.id], p, x);
      assert HasLabel(g, r, x.id);
      assert x in s.ops && Arg(p) in x.operands;
    }
    if op :| op in s.ops && Arg(p) in op.operands {
      assert HasLabel(g, r, op.id);
      assert op.id in g.ops && Moves(f, Hoisted(f), op);
      assert op.id !in Hoisted(f) ==> IsShared(f.ops, Arg(p));
      assert IsReader(Hoisted(f), g, g.ops[op.id], p, op);
      assert ParamAt(g, r, p, op);
    }
  }

  lemma DisjointSubgraphs(f: Func, g: Groups, r: nat, s: Subgraph, r': nat, s': Subgraph)
    requires AtLabel(f, g, r, s) && AtLabel(f, g, r', s') && r != r'
    ensures GroupOf(s.ops) !! GroupOf(s'.ops)
  {
    hide Filter, ParamAt, Forest, Root;
    forall id | id in GroupOf(s.ops)
      ensures id !in GroupOf(s'.ops)
    {
      assert HasLabel(g, r, id);
      assert id in GroupOf(s'.ops) ==> HasLabel(g, r', id);
    }
  }

  lemma MovedIsCollected(f: Func, g: Groups, rootToOps: map<nat, seq<Op>>, rootToParams: map<nat, set<nat>>, op: Op) returns (r: nat)
    requires Good(f, Hoisted(f), g) && Collected(g, f.ops, rootToOps, rootToParams)
    requires op in f.ops && Moves(f, Hoisted(f), op)
    ensures r in rootToOps && op in AtRootOf(rootToOps, rootToParams, r).ops
  {
    hide Forest, Balanced, Hoisted, LinksAgree, SameIsConnected, ParamsExact, Moves, Filter, Root, ParamAt;
    assert op.id in g.ops;
    r := Root(g.parent, g.rank, g.ops[op.id]);
    TrackedId(g, op.id);
    FilterMembers(AtRoot(g, r), f.ops, op);
    assert OpsAt(rootToOps, r) == Filter(AtRoot(g, r), f.ops);
  }

  ghost predicate EachAtLabel(f: Func, g: Groups, subgraphs: seq<Subgraph>) {
    forall s :: s in subgraphs ==> exists r: nat :: AtLabel(f, g, r, s)
  }

  lemma EachIsFilter(f: Func, g: Groups, subgraphs: seq<Subgraph>)
    requires WellFormed(f) && EachAtLabel(f, g, subgraphs)
    ensures forall s :: s in subgraphs ==> s.ops != [] && s.ops == Filter(InGroup(GroupOf(s.ops)), f.ops)
  {
    hide WellFormed, AtLabel, Filter;
    forall s | s in subgraphs
      ensures s.ops != [] && s.ops == Filter(InGroup(GroupOf(s.ops)), f.ops)
    {
      var r: nat :| AtLabel(f, g, r, s);
      SubgraphIsFilter(f, g, r, s);
      AtLabelNonempty(f, g, r, s);
    }
  }

  lemma EachHasParams(f: Func, g: Groups, subgraphs: seq<Subgraph>)
    requires WellFormed(f) && Good(f, Hoisted(f), g) && EachAtLabel(f, g, subgraphs)
    ensures forall s, p: nat :: s in subgraphs ==> (p in s.inputParameters <==> ReadsArg(s.ops, p))
  {
    hide WellFormed, Good, AtLabel, Hoisted;
    forall s, p: nat | s in subgraphs
      ensures p in s.inputParameters <==> ReadsArg(s.ops, p)
    {
      var r: nat :| AtLabel(f, g, r, s);
      SubgraphParams(f, g, r, s, p);
    }
  }

  lemma EachIsComponent(f: Func, g: Groups, subgraphs: seq<Subgraph>)
    requires Good(f, Hoisted(f), g) && EachAtLabel(f, g, subgraphs)
    ensures forall s, x, y :: s in subgraphs && x in s.ops && y in f.ops ==>
      (y in s.ops <==> Moves(f, Hoisted(f), y) && Connected(f, x.id, y.id))
  {
    hide Good, AtLabel, Hoisted, Moves, Connected;
    forall s, x, y | s in subgraphs && x in s.ops && y in f.ops
      ensures y in s.ops <==> Moves(f, Hoisted(f), y) && Connected(f, x.id, y.id)
    {
      var r: nat :| AtLabel(f, g, r, s);
      SubgraphIsComponent(f, g, r, s, x, y);
    }
  }

  lemma PartitionByRoots(f: Func, g: Groups, rootToOps: map<nat, seq<Op>>, rootToParams: map<nat, set<nat>>, roots: seq<nat>, subgraphs: seq<Subgraph>)
    requires WellFormed(f) && Good(f, Hoisted(f), g) && Collected(g, f.ops, rootToOps, rootToParams)
    requires |roots| == |subgraphs| && Distinct(roots) && forall r :: r in rootToOps <==> r in roots
    requires forall i :: 0 <= i < |roots| ==> subgraphs[i] == AtRootOf(rootToOps, rootToParams, roots[i])
    ensures IsPartition(f, subgraphs)
  {
    hide Good, WellFormed, Collected, AtLabel, Filter, Moves, Connected, AtRootOf, Hoisted;
    forall i | 0 <= i < |roots|
      ensures AtLabel(f, g, roots[i], subgraphs[i])
    {
      assert roots[i] in roots;
      CollectedAtLabel(f, g, rootToOps, rootToParams, roots[i]);
    }
    assert EachAtLabel(f, g, subgraphs);
    EachIsFilter(f, g, subgraphs);
    EachHasParams(f, g, subgraphs);
    EachIsComponent(f, g, subgraphs);
    forall op | op in f.ops && Moves(f, Hoisted(f), op)
      ensures exists s :: s in subgraphs && op in s.ops
    {
      var r := MovedIsCollected(f, g, rootToOps, rootToParams, op);
      var i :| 0 <= i < |roots| && roots[i] == r;
      assert subgraphs[i] in subgraphs;
    }
    forall i, j | 0 <= i < j < |subgraphs|
      ensures GroupOf(subgraphs[i].ops) !! GroupOf(subgraphs[j].ops)
    {
      DisjointSubgraphs(f, g, roots[i], subgraphs[i], roots[j], subgraphs[j]);
    }
  }

  lemma AtLabelNonempty(f: Func, g: Groups, r: nat, s: Subgraph)
    requires AtLabel(f, g, r, s)
    ensures s.ops != []
  {}
}
