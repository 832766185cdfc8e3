/**
 * Moving the subgraphs out one after another: which cuts a run makes, what the program is after
 * each, and why every cut is possible when its turn comes.
 */
module HoistSpec {
  import opened IR
  import opened Permutations
  import opened Outlining
  import opened ConstEvalSpec

  /* Each subgraph is closed */

  // A subgraph read off the body: its ops are the body's, and it has no others of the group.
  ghost predicate IsGroupOf(ops: seq<Op>, s: Subgraph) {
    s.ops == Filter(InGroup(GroupOf(s.ops)), ops)
  }

  lemma GroupMember(ops: seq<Op>, s: Subgraph, op: Op)
    requires IsGroupOf(ops, s)
    ensures op in s.ops <==> op in ops && op.id in GroupOf(s.ops)
  {
    FilterMembers(InGroup(GroupOf(s.ops)), ops, op);
  }

  lemma PartMoves(f: Func, subgraphs: seq<Subgraph>, s: Subgraph, op: Op)
    requires WellFormed(f) && IsPartition(f, subgraphs) && s in subgraphs
    requires op in f.ops && op.id in GroupOf(s.ops)
    ensures op in s.ops && Moves(f, Hoisted(f), op)
    ensures op.kind.Creation? || (op.kind.Ordinary? && op.id in Hoisted(f))
  {
    hide Ordered, EndsInTerminator, FromShared, Connected, Hoisted, Filter;
    FilterMembers(InGroup(GroupOf(s.ops)), f.ops, op);
    ConnectedItself(f, op.id);
    if op.id in Hoisted(f) {
      HoistedIsFixpoint(f, op);
    }
  }

  lemma ReadIsLinked(f: Func, op: Op, x: Op, v: Value)
    requires op in f.ops && x in f.ops && op.id in Hoisted(f) && v in op.operands && Defines(x, v)
    requires x.kind.Creation? || x.id in Hoisted(f)
    ensures Moves(f, Hoisted(f), x) && Connected(f, op.id, x.id)
  {
    hide Hoisted, Connected;
    assert Reads(op, x);
    assert Linked(f, Hoisted(f), x.id, op.id);
    ConnectedStep(f, op.id, x.id);
  }

  lemma SubgraphIsClosed(f: Func, subgraphs: seq<Subgraph>, s: Subgraph, inputs: seq<nat>)
    requires WellFormed(f) && IsPartition(f, subgraphs) && s in subgraphs
    requires forall p :: p in inputs <==> p in s.inputParameters
    ensures Closed(f.ops, GroupOf(s.ops), inputs)
  {
    hide Ordered, EndsInTerminator, Connected, Hoisted, Filter, Moves;
    forall op | op in f.ops && op.id in GroupOf(s.ops)
      ensures op.kind.Creation? || op.kind.Ordinary?
      ensures forall v :: v in op.operands ==> InScope(f.ops, GroupOf(s.ops), inputs, v)
    {
      PartMoves(f, subgraphs, s, op);
      if op.kind.Ordinary? {
        HoistedIsFixpoint(f, op);
        forall v | v in op.operands
          ensures InScope(f.ops, GroupOf(s.ops), inputs, v)
        {
          OperandInScope(f, subgraphs, s, inputs, op, v);
        }
      }
    }
  }

  lemma OperandInScope(f: Func, subgraphs: seq<Subgraph>, s: Subgraph, inputs: seq<nat>, op: Op, v: Value)
    requires IsPartition(f, subgraphs) && s in subgraphs
    requires forall p :: p in inputs <==> p in s.inputParameters
    requires op in f.ops && op in s.ops && op.id in Hoisted(f) && v in op.operands && IsConst(f, Hoisted(f), v)
    ensures InScope(f.ops, GroupOf(s.ops), inputs, v)
  {
    hide Ordered, EndsInTerminator, Connected, Hoisted, Filter, Moves;
    match v
    case Arg(p) =>
      assert ReadsArg(s.ops, p);
    case Res(_, _) =>
      var x :| x in f.ops && Defines(x, v) && (x.kind.Shared? || x.kind.Creation? || x.id in Hoisted(f));
      if !x.kind.Shared? {
        ReadIsLinked(f, op, x, v);
        assert x in s.ops;
        assert Produced(f.ops, GroupOf(s.ops), v);
      } else {
        assert IsShared(f.ops, v);
      }
  }

  lemma ParamsInRange(f: Func, subgraphs: seq<Subgraph>, s: Subgraph)
    requires WellFormed(f) && IsPartition(f, subgraphs) && s in subgraphs
    ensures forall p :: p in s.inputParameters ==> p < f.args
  {
    hide EndsInTerminator, FromShared, Connected, Hoisted, Moves;
    forall p | p in s.inputParameters
      ensures p < f.args
    {
      var op :| op in s.ops && Arg(p) in op.operands;
      FilterMembers(InGroup(GroupOf(s.ops)), f.ops, op);
      OperandDefined(f.args, f.ops, op, Arg(p));
    }
  }

  /* One cut after another */

  // The function and the new functions after the first n cuts.
  function Outlined(f: Func, cuts: seq<Cut>, n: nat): Program
    requires n <= |cuts|
  {
    if n == 0 then Program(f, []) else
      var p := Outlined(f, cuts, n - 1);
      var c := cuts[n - 1];
      if c.index <= |p.main.ops| then Program(After(p.main, c), p.consts + [Callee(p.main, c)]) else p
  }

  // The n-th cut can be made when its turn comes.
  ghost predicate FitsAt(f: Func, cuts: seq<Cut>, n: nat)
    requires n < |cuts|
  {
    cuts[n].index == n && Fits(Outlined(f, cuts, n).main, cuts[n])
  }

  ghost predicate AllFit(f: Func, cuts: seq<Cut>, n: nat)
    requires n <= |cuts|
  {
    forall i :: 0 <= i < n ==> FitsAt(f, cuts, i)
  }

  // The cuts of a run of the pass: one for each subgraph of the analysis, with its results in order.
  ghost predicate CutsOf(f: Func, subgraphs: seq<Subgraph>, cuts: seq<Cut>) {
    && |cuts| == |subgraphs| && AllFit(f, cuts, |cuts|)
    && forall i :: 0 <= i < |cuts| ==>
         && cuts[i].group == GroupOf(subgraphs[i].ops) && cuts[i].inputs == SortedBelow(subgraphs[i].inputParameters, f.args)
         && InOrder(subgraphs[i].ops, cuts[i].outputs)
  }

  /* What every cut keeps */

  // Ops that a cut leaves alone stay in the body, in the same order.
  lemma {:induction false} KeptInOrder(f: Func, c: Cut, keep: Op -> bool, k: nat)
    requires Fits(f, c) && c.index <= k <= |f.ops|
    requires forall op :: op in f.ops && keep(op) ==> op.id !in c.group && RedirectOp(c.outputs, c.call)(op) == op
    requires forall op :: op in f.ops ==> keep(RedirectOp(c.outputs, c.call)(op)) == keep(op)
    requires !keep(CallOp(c))
    ensures Filter(keep, Done(f, c, k)) == Filter(keep, f.ops[..k])
  {
    hide Fits, Done;
    if k == c.index {
      DoneFirst(f, c);
      FilterSnoc(keep, f.ops[..k], CallOp(c));
    } else {
      var op := f.ops[k - 1];
      assert op in f.ops;
      KeptInOrder(f, c, keep, k - 1);
      DoneNext(f, c, k - 1);
      assert f.ops[..k] == f.ops[..k - 1] + [op];
      FilterSnoc(keep, f.ops[..k - 1], op);
      FilterSnoc(keep, Done(f, c, k - 1), RedirectOp(c.outputs, c.call)(op));
      if op.id in c.group {
        assert Done(f, c, k) == Done(f, c, k - 1);
      } else {
        assert Done(f, c, k) == Done(f, c, k - 1) + [RedirectOp(c.outputs, c.call)(op)];
      }
    }
  }

  lemma KeptByCut(f: Func, c: Cut, keep: Op -> bool)
    requires Fits(f, c)
    requires forall op :: op in f.ops && keep(op) ==> op.id !in c.group && RedirectOp(c.outputs, c.call)(op) == op
    requires forall op :: op in f.ops ==> keep(RedirectOp(c.outputs, c.call)(op)) == keep(op)
    requires !keep(CallOp(c))
    ensures Filter(keep, After(f, c).ops) == Filter(keep, f.ops)
  {
    AfterIsDone(f, c);
    KeptInOrder(f, c, keep, |f.ops|);
    assert f.ops[..|f.ops|] == f.ops;
  }

  lemma SharedKept(f: Func, c: Cut)
    requires Fits(f, c)
    ensures Filter(SharedOnly(), After(f, c).ops) == Filter(SharedOnly(), f.ops)
  {
    hide After, Filter, Loads, IsBoundary, WellFormed;
    forall op | op in f.ops && op.kind.Shared?
      ensures op.id !in c.group && RedirectOp(c.outputs, c.call)(op) == op
    {
      assert op.id !in c.group;
      SharedStays(f, c, op);
    }
    KeptByCut(f, c, SharedOnly());
  }

  lemma GroupKept(f: Func, c: Cut, group: set<nat>, inputs: seq<nat>)
    requires Fits(f, c) && Closed(f.ops, group, inputs) && group !! c.group && c.call !in group
    ensures Filter(InGroup(group), After(f, c).ops) == Filter(InGroup(group), f.ops)
  {
    hide After, Filter, Loads, IsBoundary, WellFormed, Closed, Fits;
    forall op | op in f.ops && op.id in group
      ensures op.id !in c.group && RedirectOp(c.outputs, c.call)(op) == op
    {
      OtherGroupUntouched(f, c, group, inputs, op);
    }
    KeptByCut(f, c, InGroup(group));
  }

  // The functions made, the calls in front of the body and nothing else that calls.
  ghost predicate Intact(f: Func, p: Program, n: nat) {
    && WellFormed(p.main) && p.main.args == f.args && p.main.constArgs == f.constArgs
    && |p.consts| == n && Loads(p.main.ops, n) && CallsWithin(p.main.ops, n)
    && (forall k :: k in p.consts ==> WellFormed(k) && NoCalls(k.ops))
    && (forall i :: 0 <= i < n ==> p.main.ops[i].kind == LoadCached(i))
  }

  lemma IntactNext(f: Func, p: Program, c: Cut, n: nat)
    requires Intact(f, p, n) && Fits(p.main, c) && c.index == n
    ensures Intact(f, Program(After(p.main, c), p.consts + [Callee(p.main, c)]), n + 1)
  {
    hide Fits, WellFormed, Done, Callee, NoCalls;
    AfterWellFormed(p.main, c);
    CalleeWellFormed(p.main, c);
    AfterIsDone(p.main, c);
    DoneStart(p.main, c, |p.main.ops|);
    forall x | x in After(p.main, c).ops && x.kind.LoadCached?
      ensures x.kind.callee < n + 1
    {
      AfterMembers(p.main, c, x);
    }
    var start := p.main.ops[..n] + [CallOp(c)];
    forall i | 0 <= i < n + 1
      ensures After(p.main, c).ops[i].kind == LoadCached(i)
    {
      assert After(p.main, c).ops[i] == start[i];
    }
  }

  lemma IntactAtFirst(f: Func, cuts: seq<Cut>)
    requires WellFormed(f) && NoCalls(f.ops)
    ensures Intact(f, Outlined(f, cuts, 0), 0)
  {
    hide WellFormed;
  }

  lemma {:induction false} OutlinedIntact(f: Func, cuts: seq<Cut>, n: nat)
    requires WellFormed(f) && NoCalls(f.ops) && n <= |cuts| && AllFit(f, cuts, n)
    ensures Intact(f, Outlined(f, cuts, n), n)
  {
    hide Fits, WellFormed, After, Callee, Intact;
    if n == 0 {
      IntactAtFirst(f, cuts);
    } else {
      OutlinedIntact(f, cuts, n - 1);
      assert FitsAt(f, cuts, n - 1);
      FitsIndex(Outlined(f, cuts, n - 1).main, cuts[n - 1]);
      IntactNext(f, Outlined(f, cuts, n - 1), cuts[n - 1], n - 1);
    }
  }

  lemma FitsIndex(f: Func, c: Cut)
    requires Fits(f, c)
    ensures c.index <= |f.ops|
  {}

  // Whatever the order of the subgraphs, the function returns what it did.
  lemma {:induction false} HoistingKeepsMeaning(interp: Interp, f: Func, cuts: seq<Cut>, n: nat, args: seq<int>)
    requires WellFormed(f) && NoCalls(f.ops) && n <= |cuts| && AllFit(f, cuts, n) && |args| == f.args
    ensures Outlined(f, cuts, n).main.ops != []
    ensures RunProgram(interp, Outlined(f, cuts, n), args) == RunProgram(interp, Program(f, []), args)
  {
    hide Fits, After, Callee, RunProgram;
    OutlinedIntact(f, cuts, n);
    if n > 0 {
      var p := Outlined(f, cuts, n - 1);
      OutlinedIntact(f, cuts, n - 1);
      HoistingKeepsMeaning(interp, f, cuts, n - 1, args);
      assert FitsAt(f, cuts, n - 1);
      FitsIndex(p.main, cuts[n - 1]);
      OutliningKeepsMeaning(interp, p, cuts[n - 1], args);
    }
  }

  // A group not yet moved is still there, op for op, and still closed.
  lemma {:induction false} GroupWaits(f: Func, cuts: seq<Cut>, n: nat, s: Subgraph, inputs: seq<nat>)
    requires n <= |cuts| && AllFit(f, cuts, n)
    requires IsGroupOf(f.ops, s) && Closed(f.ops, GroupOf(s.ops), inputs)
    requires forall i :: 0 <= i < n ==> GroupOf(s.ops) !! cuts[i].group
    ensures IsGroupOf(Outlined(f, cuts, n).main.ops, s) && Closed(Outlined(f, cuts, n).main.ops, GroupOf(s.ops), inputs)
  {
    hide Fits, After, Callee, Closed, Filter;
    if n > 0 {
      var p := Outlined(f, cuts, n - 1);
      var c := cuts[n - 1];
      GroupWaits(f, cuts, n - 1, s, inputs);
      assert FitsAt(f, cuts, n - 1);
      FitsIndex(p.main, c);
      CallIsNew(p.main, c, s);
      OtherGroupClosed(p.main, c, GroupOf(s.ops), inputs);
      GroupKept(p.main, c, GroupOf(s.ops), inputs);
    }
  }

  lemma CallIsNew(f: Func, c: Cut, s: Subgraph)
    requires Fits(f, c) && IsGroupOf(f.ops, s)
    ensures c.call !in GroupOf(s.ops)
  {
    hide Filter, WellFormed, Closed, Loads, IsBoundary;
    if c.call in GroupOf(s.ops) {
      var op :| op in s.ops && op.id == c.call;
      GroupMember(f.ops, s, op);
    }
  }

  lemma {:induction false} SharedWait(f: Func, cuts: seq<Cut>, n: nat)
    requires n <= |cuts| && AllFit(f, cuts, n)
    ensures Filter(SharedOnly(), Outlined(f, cuts, n).main.ops) == Filter(SharedOnly(), f.ops)
  {
    hide Fits, After, Callee, Filter;
    if n > 0 {
      SharedWait(f, cuts, n - 1);
      assert FitsAt(f, cuts, n - 1);
      FitsIndex(Outlined(f, cuts, n - 1).main, cuts[n - 1]);
      SharedKept(Outlined(f, cuts, n - 1).main, cuts[n - 1]);
    }
  }
}
