/**
 * Running the pass on its own output: undoing what the pass did gives the function back, up to the
 * numbers of its ops, their order and duplicate shared ops, so the pass finds the same groups again.
 */
module RoundTrip {
  import opened IR
  import opened Outlining
  import opened ConstEvalSpec
  import opened HoistSpec
  import opened Renaming
  import opened Wrappers
  import Dedup
  import I = Inlining
  import U = ConstEvalUndo
  import H = ConstEvalHoist

  /* What an operand refers to while part of the function lives in other functions */

  // Seen from inside a new function, whose arguments stand for the call's operands.
  function InnerRef(k: Func, operands: seq<Value>, v: Value): Ref {
    if v.Arg? && v.index < |operands| && operands[v.index].Arg? then ToArg(operands[v.index].index) else RefOf(k.ops, map[], v)
  }

  function InnerRefs(k: Func, operands: seq<Value>, vs: seq<Value>): (r: seq<Ref>)
    ensures |r| == |vs|
  {
    seq(|vs|, (i: nat) requires i < |vs| => InnerRef(k, operands, vs[i]))
  }

  predicate IsLoad(ops: seq<Op>, consts: seq<Func>, id: nat, r: nat) {
    && FindOp(ops, id).Some? && FindOp(ops, id).value.kind.LoadCached?
    && FindOp(ops, id).value.kind.callee < |consts|
    && consts[FindOp(ops, id).value.kind.callee].ops != []
    && r < |Returned(consts[FindOp(ops, id).value.kind.callee])|
  }

  // Seen from the caller: a result of a call refers to what the new function returns.
  function OuterRef(ops: seq<Op>, consts: seq<Func>, org: map<nat, nat>, v: Value): Ref {
    if v.Res? && IsLoad(ops, consts, v.op, v.result) then
      var call := FindOp(ops, v.op).value;
      InnerRef(consts[call.kind.callee], call.operands, Returned(consts[call.kind.callee])[v.result])
    else RefOf(ops, org, v)
  }

  function OuterRefs(ops: seq<Op>, consts: seq<Func>, org: map<nat, nat>, vs: seq<Value>): (r: seq<Ref>)
    ensures |r| == |vs|
  {
    seq(|vs|, (i: nat) requires i < |vs| => OuterRef(ops, consts, org, vs[i]))
  }

  predicate IsOuter(x: Op) {
    !x.kind.Shared? && !x.kind.LoadCached?
  }

  predicate IsInner(x: Op) {
    !x.kind.Shared? && !x.kind.Terminator?
  }

  function OuterIds(ops: seq<Op>, org: map<nat, nat>): set<nat> {
    set x | x in ops && IsOuter(x) :: Origin(org, x.id)
  }

  function InnerIds(k: Func): set<nat> {
    set x | x in k.ops && IsInner(x) :: x.id
  }

  /* The relation every step of the two passes keeps */

  ghost predicate IsOuterCopy(f: Func, p: Program, org: map<nat, nat>, x: Op) {
    exists q :: q in f.ops && q.id == Origin(org, x.id) && Copies(x, OuterRefs(p.main.ops, p.consts, org, x.operands), q, f)
  }

  // The caller's own ops are ops of the function.
  ghost predicate OuterCopies(f: Func, p: Program, org: map<nat, nat>) {
    forall x :: x in p.main.ops && IsOuter(x) ==> IsOuterCopy(f, p, org, x)
  }

  // So are those of a function still called.
  ghost predicate InnerCopiesAt(f: Func, consts: seq<Func>, call: Op) {
    && ReadsArgsOnly(call) && call.kind.LoadCached? && call.kind.callee < |consts|
    && var k := consts[call.kind.callee];
       forall y :: y in k.ops && IsInner(y) ==>
         exists q :: q in f.ops && q.id == y.id && Copies(y, InnerRefs(k, call.operands, y.operands), q, f)
  }

  ghost predicate InnerCopies(f: Func, p: Program) {
    forall call :: call in p.main.ops && call.kind.LoadCached? ==> InnerCopiesAt(f, p.consts, call)
  }

  // Each op of the function is in one place.
  ghost predicate OnePlace(f: Func, p: Program, org: map<nat, nat>) {
    && (forall x, y :: x in p.main.ops && y in p.main.ops && IsOuter(x) && IsOuter(y) && Origin(org, x.id) == Origin(org, y.id) ==> x == y)
    && (forall c :: 0 <= c < |p.consts| && U.IsCalled(p.main.ops, c) ==> OuterIds(p.main.ops, org) !! InnerIds(p.consts[c]))
    && (forall c, d :: 0 <= c < d < |p.consts| && U.IsCalled(p.main.ops, c) && U.IsCalled(p.main.ops, d) ==>
          InnerIds(p.consts[c]) !! InnerIds(p.consts[d]))
  }

  ghost predicate SomePlace(f: Func, p: Program, org: map<nat, nat>) {
    forall q :: q in f.ops && !q.kind.Shared? ==>
      q.id in OuterIds(p.main.ops, org) || exists c :: 0 <= c < |p.consts| && U.IsCalled(p.main.ops, c) && q.id in InnerIds(p.consts[c])
  }

  // The shared ops everywhere have the names and attributes they had.
  ghost predicate Keys(f: Func, p: Program) {
    OldKeys(f, p.main.ops) && AllKeys(f, p.main.ops) && forall k :: k in p.consts ==> OldKeys(f, k.ops)
  }

  ghost predicate Same(f: Func, p: Program, org: map<nat, nat>) {
    && p.main.args == f.args && p.main.constArgs == f.constArgs
    && OuterCopies(f, p, org) && InnerCopies(f, p) && OnePlace(f, p, org) && SomePlace(f, p, org) && Keys(f, p)
  }

  lemma OwnCopy(f: Func, x: Op)
    requires NoCalls(f.ops) && x in f.ops
    ensures IsOuterCopy(f, Program(f, []), map[], x)
  {
    hide FindOp;
    assert Copies(x, OuterRefs(f.ops, [], map[], x.operands), x, f);
  }

  lemma SameAtFirst(f: Func)
    requires WellFormed(f) && NoCalls(f.ops)
    ensures Same(f, Program(f, []), map[])
  {
    hide Ordered, EndsInTerminator, FromShared, FindOp, IsOuterCopy;
    var p := Program(f, []);
    forall x | x in f.ops && IsOuter(x)
      ensures IsOuterCopy(f, p, map[], x)
    {
      OwnCopy(f, x);
    }
    forall x, y | x in f.ops && y in f.ops && IsOuter(x) && IsOuter(y) && Origin(map[], x.id) == Origin(map[], y.id)
      ensures x == y
    {
      UniqueOp(f.args, f.ops, x, y);
    }
    forall q | q in f.ops && !q.kind.Shared?
      ensures q.id in OuterIds(f.ops, map[])
    {
      assert IsOuter(q);
      assert q.id == Origin(map[], q.id);
    }
    assert forall x :: x in f.ops ==> Dedup.SameKey(x, x);
  }

  /* Outlining a group */

  function Next(p: Program, c: Cut): Program
    requires c.index <= |p.main.ops|
  {
    Program(After(p.main, c), p.consts + [Callee(p.main, c)])
  }

  // A cut at its turn, of a program that still is the function.
  ghost predicate AtCut(f: Func, p: Program, c: Cut) {
    && Fits(p.main, c) && WellFormed(p.main) && c.index == |p.consts| && c.index <= |p.main.ops|
    && CallsWithin(p.main.ops, |p.consts|) && Same(f, p, map[])
  }

  lemma AfterFind(g: Func, c: Cut, op: Op)
    requires Fits(g, c) && op in g.ops && op.id !in c.group
    ensures FindOp(After(g, c).ops, op.id) == Some(RedirectOp(c.outputs, c.call)(op))
  {
    hide Fits, FindOp, After, Ordered, EndsInTerminator, FromShared;
    FitsIndex(g, c);
    AfterWellFormed(g, c);
    AfterKeeps(g, c, op);
    FoundOp(After(g, c).args, After(g, c).ops, RedirectOp(c.outputs, c.call)(op));
  }

  lemma AfterFindCall(g: Func, c: Cut)
    requires Fits(g, c)
    ensures FindOp(After(g, c).ops, c.call) == Some(CallOp(c))
  {
    hide Fits, FindOp, After, Ordered, EndsInTerminator, FromShared;
    FitsIndex(g, c);
    AfterWellFormed(g, c);
    AfterMembers(g, c, CallOp(c));
    FoundOp(After(g, c).args, After(g, c).ops, CallOp(c));
  }

  lemma CalleeFind(g: Func, c: Cut, d: Op)
    requires Fits(g, c) && d in g.ops && (d.kind.Shared? || d.id in c.group)
    ensures FindOp(Callee(g, c).ops, d.id) == Some(CloneOf(c.inputs)(d))
  {
    hide Fits, FindOp, Callee, Ordered, EndsInTerminator, FromShared;
    CalleeWellFormed(g, c);
    CalleeMembers(g, c, CloneOf(c.inputs)(d));
    FoundOp(Callee(g, c).args, Callee(g, c).ops, CloneOf(c.inputs)(d));
  }

  lemma GroupIsPlain(g: Func, c: Cut, d: Op)
    requires Fits(g, c) && d in g.ops && d.id in c.group
    ensures d.kind.Creation? || d.kind.Ordinary?
  {}

  // Redirected or not, an operand refers to what it did.
  lemma RedirectedRef(f: Func, p: Program, c: Cut, op: Op, v: Value)
    requires AtCut(f, p, c) && op in p.main.ops && op.id !in c.group && v in op.operands
    ensures OuterRef(Next(p, c).main.ops, Next(p, c).consts, map[], Redirect(c.outputs, c.call, v))
            == OuterRef(p.main.ops, p.consts, map[], v)
  {
    hide Ordered, EndsInTerminator, FromShared, FindOp, After, Callee, Same, CallsWithin, Closed, Loads;
    var g := p.main;
    if v.Res? {
      OperandDefined(g.args, g.ops, op, v);
      var d :| d in g.ops && Defines(d, v);
      FoundOp(g.args, g.ops, d);
      RedirectedRead(g, c, op, v);
      if v in c.outputs {
        OutputDefiner(g, c, d, v);
        OutputRef(p, c, d, v);
      } else {
        assert d.id !in c.group;
        AfterFind(g, c, d);
        if d.kind.LoadCached? {
          LoadUnchanged(f, p, c, d);
        }
      }
    }
  }

  lemma OutputDefiner(g: Func, c: Cut, d: Op, v: Value)
    requires Fits(g, c) && d in g.ops && Defines(d, v) && v in c.outputs
    ensures d.id in c.group && (d.kind.Creation? || d.kind.Ordinary?)
  {
    hide EndsInTerminator, FromShared, Loads, Closed, Ordered;
    var e :| e in g.ops && e.id in c.group && Defines(e, v);
    UniqueOp(g.args, g.ops, d, e);
    GroupIsPlain(g, c, d);
  }

  lemma OutputRef(p: Program, c: Cut, d: Op, v: Value)
    requires Fits(p.main, c) && c.index == |p.consts| && c.index <= |p.main.ops|
    requires d in p.main.ops && d.id in c.group && (d.kind.Creation? || d.kind.Ordinary?) && Defines(d, v) && v in c.outputs
    ensures OuterRef(Next(p, c).main.ops, Next(p, c).consts, map[], Redirect(c.outputs, c.call, v)) == ToOp(d.id, v.result)
  {
    hide Fits, FindOp, After, Callee;
    AfterFindCall(p.main, c);
    CalleeFind(p.main, c, d);
    CalleeWellFormed(p.main, c);
    var consts := Next(p, c).consts;
    assert consts[|p.consts|] == Callee(p.main, c);
  }

  // An earlier call reads arguments only, so it is untouched.
  lemma LoadUnchanged(f: Func, p: Program, c: Cut, d: Op)
    requires AtCut(f, p, c) && d in p.main.ops && d.kind.LoadCached?
    ensures RedirectOp(c.outputs, c.call)(d) == d && d.id !in c.group
    ensures d.kind.callee < |p.consts| && Next(p, c).consts[d.kind.callee] == p.consts[d.kind.callee]
    ensures InnerCopiesAt(f, p.consts, d)
  {
    hide WellFormed, After, Callee, OuterCopies, OnePlace, SomePlace, Keys;
    OutputsAreResults(p.main, c);
    assert InnerCopiesAt(f, p.consts, d);
    RedirectArgs(c.outputs, c.call, d);
    if d.id in c.group {
      GroupIsPlain(p.main, c, d);
    }
  }

  lemma RedirectedRefs(f: Func, p: Program, c: Cut, op: Op)
    requires AtCut(f, p, c) && op in p.main.ops && op.id !in c.group
    ensures OuterRefs(Next(p, c).main.ops, Next(p, c).consts, map[], RedirectOperands(c.outputs, c.call, op.operands))
            == OuterRefs(p.main.ops, p.consts, map[], op.operands)
  {
    hide Fits, WellFormed, Same, CallsWithin, OuterRef, Next;
    var x := RedirectOperands(c.outputs, c.call, op.operands);
    forall i | 0 <= i < |op.operands|
      ensures OuterRef(Next(p, c).main.ops, Next(p, c).consts, map[], x[i]) == OuterRef(p.main.ops, p.consts, map[], op.operands[i])
    {
      assert op.operands[i] in op.operands;
      RedirectedRef(f, p, c, op, op.operands[i]);
    }
  }

  // A clone's operand refers to what the op's did.
  lemma ReboundRef(f: Func, p: Program, c: Cut, d: Op, v: Value)
    requires AtCut(f, p, c) && d in p.main.ops && d.id in c.group && v in d.operands
    ensures InnerRef(Callee(p.main, c), CallOp(c).operands, Rebind(c.inputs, v)) == OuterRef(p.main.ops, p.consts, map[], v)
  {
    hide Ordered, EndsInTerminator, FromShared, FindOp, Callee, Same, CallsWithin, Loads, IsBoundary;
    var g := p.main;
    assert InScope(g.ops, c.group, c.inputs, v);
    if v.Res? {
      var e: Op;
      if IsShared(g.ops, v) {
        e :| e in g.ops && e.kind.Shared? && Defines(e, v);
      } else {
        e :| e in g.ops && e.id in c.group && Defines(e, v);
        GroupIsPlain(g, c, e);
      }
      FoundOp(g.args, g.ops, e);
      CalleeFind(g, c, e);
    }
  }

  lemma ReboundRefs(f: Func, p: Program, c: Cut, d: Op)
    requires AtCut(f, p, c) && d in p.main.ops && d.id in c.group
    ensures InnerRefs(Callee(p.main, c), CallOp(c).operands, RebindOperands(c.inputs, d.operands))
            == OuterRefs(p.main.ops, p.consts, map[], d.operands)
  {
    hide AtCut, OuterRef, InnerRef, Callee, CallOp;
    var x := RebindOperands(c.inputs, d.operands);
    forall i | 0 <= i < |d.operands|
      ensures InnerRef(Callee(p.main, c), CallOp(c).operands, x[i]) == OuterRef(p.main.ops, p.consts, map[], d.operands[i])
    {
      assert d.operands[i] in d.operands;
      ReboundRef(f, p, c, d, d.operands[i]);
    }
  }

  lemma OuterCopiesNext(f: Func, p: Program, c: Cut)
    requires AtCut(f, p, c)
    ensures OuterCopies(f, Next(p, c), map[])
  {
    hide Fits, WellFormed, CallsWithin, OuterRefs, Copies, InnerCopies, OnePlace, SomePlace, Keys, After, Callee;
    forall x | x in Next(p, c).main.ops && IsOuter(x)
      ensures IsOuterCopy(f, Next(p, c), map[], x)
    {
      AfterMembers(p.main, c, x);
      var op :| op in p.main.ops && op.id !in c.group && x == RedirectOp(c.outputs, c.call)(op);
      assert IsOuter(op);
      var q :| q in f.ops && q.id == Origin(map[], op.id) && Copies(op, OuterRefs(p.main.ops, p.consts, map[], op.operands), q, f);
      RedirectedRefs(f, p, c, op);
      CopiesRefs(op, x, OuterRefs(p.main.ops, p.consts, map[], op.operands), q, f);
    }
  }

  // Ops that differ in their numbers and operands only copy the same op.
  lemma CopiesRefs(op: Op, x: Op, refs: seq<Ref>, q: Op, f: Func)
    requires Copies(op, refs, q, f) && x.kind == op.kind && x.name == op.name && x.attrs == op.attrs
    requires x.results == op.results && |x.operands| == |op.operands|
    ensures Copies(x, refs, q, f)
  {}

  lemma InnerCopiesMore(f: Func, consts: seq<Func>, k: Func, call: Op)
    requires InnerCopiesAt(f, consts, call)
    ensures InnerCopiesAt(f, consts + [k], call)
  {
    hide Copies, InnerRefs;
  }

  lemma InnerCopiesNext(f: Func, p: Program, c: Cut)
    requires AtCut(f, p, c)
    ensures InnerCopies(f, Next(p, c))
  {
    hide Fits, WellFormed, CallsWithin, OuterCopies, OnePlace, SomePlace, Keys, After, Callee, InnerCopiesAt;
    forall call | call in Next(p, c).main.ops && call.kind.LoadCached?
      ensures InnerCopiesAt(f, Next(p, c).consts, call)
    {
      AfterMembers(p.main, c, call);
      if call == CallOp(c) {
        InnerCopiesNew(f, p, c);
      } else {
        var op :| op in p.main.ops && op.id !in c.group && call == RedirectOp(c.outputs, c.call)(op);
        LoadUnchanged(f, p, c, op);
        InnerCopiesMore(f, p.consts, Callee(p.main, c), op);
      }
    }
  }

  lemma InnerCopiesNew(f: Func, p: Program, c: Cut)
    requires AtCut(f, p, c)
    ensures InnerCopiesAt(f, Next(p, c).consts, CallOp(c))
  {
    hide Fits, WellFormed, CallsWithin, InnerCopies, OnePlace, SomePlace, Keys, After, Callee, Copies, InnerRefs, OuterRefs;
    var k := Callee(p.main, c);
    assert Next(p, c).consts[|p.consts|] == k;
    forall y | y in k.ops && IsInner(y)
      ensures exists q :: q in f.ops && q.id == y.id && Copies(y, InnerRefs(k, CallOp(c).operands, y.operands), q, f)
    {
      CalleeMembers(p.main, c, y);
      var d :| d in p.main.ops && (d.kind.Shared? || d.id in c.group) && y == CloneOf(c.inputs)(d);
      GroupIsPlain(p.main, c, d);
      assert IsOuter(d);
      var q :| q in f.ops && q.id == Origin(map[], d.id) && Copies(d, OuterRefs(p.main.ops, p.consts, map[], d.operands), q, f);
      ReboundRefs(f, p, c, d);
      CopiesRefs(d, y, OuterRefs(p.main.ops, p.consts, map[], d.operands), q, f);
    }
  }

  lemma InnerIdsNew(g: Func, c: Cut, id: nat)
    requires Fits(g, c)
    ensures id in InnerIds(Callee(g, c)) <==> exists d :: d in g.ops && d.id in c.group && d.id == id
  {
    hide WellFormed, Loads, IsBoundary, Callee;
    if id in InnerIds(Callee(g, c)) {
      var x :| x in Callee(g, c).ops && IsInner(x) && x.id == id;
      CalleeMembers(g, c, x);
      var d :| d in g.ops && (d.kind.Shared? || d.id in c.group) && x == CloneOf(c.inputs)(d);
      assert d.id in c.group;
    }
    if d :| d in g.ops && d.id in c.group && d.id == id {
      var x := CloneOf(c.inputs)(d);
      CalleeMembers(g, c, x);
      assert x in Callee(g, c).ops && IsInner(x);
    }
  }

  lemma OuterIdsNext(g: Func, c: Cut, id: nat)
    requires Fits(g, c) && c.index <= |g.ops|
    ensures id in OuterIds(After(g, c).ops, map[]) <==> id in OuterIds(g.ops, map[]) && id !in c.group
  {
    hide WellFormed, Loads, IsBoundary, After, Closed;
    if id in OuterIds(After(g, c).ops, map[]) {
      var x :| x in After(g, c).ops && IsOuter(x) && Origin(map[], x.id) == id;
      AfterMembers(g, c, x);
      var op :| op in g.ops && op.id !in c.group && x == RedirectOp(c.outputs, c.call)(op);
      assert IsOuter(op);
    }
    if id in OuterIds(g.ops, map[]) && id !in c.group {
      var op :| op in g.ops && IsOuter(op) && Origin(map[], op.id) == id;
      var x := RedirectOp(c.outputs, c.call)(op);
      AfterMembers(g, c, x);
      assert x in After(g, c).ops && IsOuter(x);
    }
  }

  lemma CalledNext(g: Func, c: Cut, d: nat)
    requires Fits(g, c) && c.index <= |g.ops|
    ensures U.IsCalled(After(g, c).ops, d) <==> U.IsCalled(g.ops, d) || d == c.index
  {
    hide WellFormed, Loads, IsBoundary, After;
    if x :| x in After(g, c).ops && U.Calls(x, d) {
      AfterMembers(g, c, x);
      if x != CallOp(c) {
        var op :| op in g.ops && op.id !in c.group && x == RedirectOp(c.outputs, c.call)(op);
        assert U.Calls(op, d);
      }
    }
    if op :| op in g.ops && U.Calls(op, d) {
      assert op.id !in c.group;
      var x := RedirectOp(c.outputs, c.call)(op);
      AfterMembers(g, c, x);
      assert U.Calls(x, d);
    }
    if d == c.index {
      AfterMembers(g, c, CallOp(c));
      assert U.Calls(CallOp(c), d);
    }
  }

  lemma NotCalledYet(p: Program)
    requires CallsWithin(p.main.ops, |p.consts|)
    ensures !U.IsCalled(p.main.ops, |p.consts|)
  {}

  lemma OnePlaceNext(f: Func, p: Program, c: Cut)
    requires AtCut(f, p, c)
    ensures OnePlace(f, Next(p, c), map[])
  {
    hide Fits, Ordered, EndsInTerminator, FromShared, CallsWithin, OuterCopies, InnerCopies, SomePlace, Keys, After, Callee, OuterIds, InnerIds, U.IsCalled;
    var n := Next(p, c);
    AfterWellFormed(p.main, c);
    forall x, y | x in n.main.ops && y in n.main.ops && IsOuter(x) && IsOuter(y) && Origin(map[], x.id) == Origin(map[], y.id)
      ensures x == y
    {
      UniqueOp(n.main.args, n.main.ops, x, y);
    }
    NotCalledYet(p);
    forall d | 0 <= d < |n.consts| && U.IsCalled(n.main.ops, d)
      ensures OuterIds(n.main.ops, map[]) !! InnerIds(n.consts[d])
    {
      CalledNext(p.main, c, d);
      forall id | id in OuterIds(n.main.ops, map[])
        ensures id !in InnerIds(n.consts[d])
      {
        OuterIdsNext(p.main, c, id);
        InnerIdsNew(p.main, c, id);
      }
    }
    forall d, e | 0 <= d < e < |n.consts| && U.IsCalled(n.main.ops, d) && U.IsCalled(n.main.ops, e)
      ensures InnerIds(n.consts[d]) !! InnerIds(n.consts[e])
    {
      CalledNext(p.main, c, d);
      CalledNext(p.main, c, e);
      if e == |p.consts| {
        forall id | id in InnerIds(n.consts[d])
          ensures id !in InnerIds(n.consts[e])
        {
          InnerIdsNew(p.main, c, id);
          GroupIsOuter(p.main, c, id);
        }
      }
    }
  }

  lemma GroupIsOuter(g: Func, c: Cut, id: nat)
    requires Fits(g, c)
    ensures (exists d :: d in g.ops && d.id in c.group && d.id == id) ==> id in OuterIds(g.ops, map[])
  {
    hide WellFormed, Loads, IsBoundary;
    if d :| d in g.ops && d.id in c.group && d.id == id {
      assert IsOuter(d) && Origin(map[], d.id) == id;
    }
  }

  lemma SomePlaceNext(f: Func, p: Program, c: Cut)
    requires AtCut(f, p, c)
    ensures SomePlace(f, Next(p, c), map[])
  {
    hide Fits, WellFormed, CallsWithin, OuterCopies, InnerCopies, OnePlace, Keys, After, Callee, InnerIds, U.IsCalled;
    var n := Next(p, c);
    forall q | q in f.ops && !q.kind.Shared?
      ensures q.id in OuterIds(n.main.ops, map[]) || exists d :: 0 <= d < |n.consts| && U.IsCalled(n.main.ops, d) && q.id in InnerIds(n.consts[d])
    {
      if q.id in OuterIds(p.main.ops, map[]) {
        OuterIdsNext(p.main, c, q.id);
        if q.id in c.group {
          var op :| op in p.main.ops && IsOuter(op) && Origin(map[], op.id) == q.id;
          InnerIdsNew(p.main, c, q.id);
          CalledNext(p.main, c, |p.consts|);
          assert n.consts[|p.consts|] == Callee(p.main, c);
        }
      } else {
        var d :| 0 <= d < |p.consts| && U.IsCalled(p.main.ops, d) && q.id in InnerIds(p.consts[d]);
        CalledNext(p.main, c, d);
        assert n.consts[d] == p.consts[d];
      }
    }
  }

  lemma OldKeysNext(f: Func, g: Func, c: Cut)
    requires OldKeys(f, g.ops) && Fits(g, c) && c.index <= |g.ops|
    ensures OldKeys(f, After(g, c).ops)
  {
    hide Fits, After;
    forall x | x in After(g, c).ops && x.kind.Shared?
      ensures exists q :: q in f.ops && q.kind.Shared? && Dedup.SameKey(x, q)
    {
      AfterMembers(g, c, x);
      var op :| op in g.ops && op.id !in c.group && x == RedirectOp(c.outputs, c.call)(op);
      var q :| q in f.ops && q.kind.Shared? && Dedup.SameKey(op, q);
      assert Dedup.SameKey(x, q);
    }
  }

  lemma AllKeysNext(f: Func, g: Func, c: Cut)
    requires AllKeys(f, g.ops) && Fits(g, c) && c.index <= |g.ops|
    ensures AllKeys(f, After(g, c).ops)
  {
    hide Fits, After;
    forall q | q in f.ops && q.kind.Shared?
      ensures exists x :: x in After(g, c).ops && x.kind.Shared? && Dedup.SameKey(x, q)
    {
      var x :| x in g.ops && x.kind.Shared? && Dedup.SameKey(x, q);
      SharedOutside(g, c, x);
      SharedStays(g, c, x);
    }
  }

  lemma KeysNext(f: Func, p: Program, c: Cut)
    requires AtCut(f, p, c)
    ensures Keys(f, Next(p, c))
  {
    hide Fits, WellFormed, CallsWithin, OuterCopies, InnerCopies, OnePlace, SomePlace, After, Callee, OldKeys, AllKeys;
    OldKeysNext(f, p.main, c);
    AllKeysNext(f, p.main, c);
    NewKeys(f, p, c);
  }

  lemma SharedOutside(g: Func, c: Cut, x: Op)
    requires Fits(g, c) && x in g.ops && x.kind.Shared?
    ensures x.id !in c.group
  {
    hide WellFormed, Loads, IsBoundary;
  }

  lemma NewKeys(f: Func, p: Program, c: Cut)
    requires OldKeys(f, p.main.ops) && Fits(p.main, c)
    ensures OldKeys(f, Callee(p.main, c).ops)
  {
    hide Fits, Callee;
    forall x | x in Callee(p.main, c).ops && x.kind.Shared?
      ensures exists q :: q in f.ops && q.kind.Shared? && Dedup.SameKey(x, q)
    {
      CalleeMembers(p.main, c, x);
      var d :| d in p.main.ops && (d.kind.Shared? || d.id in c.group) && x == CloneOf(c.inputs)(d);
      var q :| q in f.ops && q.kind.Shared? && Dedup.SameKey(d, q);
      assert Dedup.SameKey(x, q);
    }
  }

  // Outlining one group keeps the program the same function.
  lemma SameNext(f: Func, p: Program, c: Cut)
    requires AtCut(f, p, c)
    ensures Same(f, Next(p, c), map[])
  {
    hide Fits, WellFormed, CallsWithin, OuterCopies, InnerCopies, OnePlace, SomePlace, Keys, Callee;
    OuterCopiesNext(f, p, c);
    InnerCopiesNext(f, p, c);
    OnePlaceNext(f, p, c);
    SomePlaceNext(f, p, c);
    KeysNext(f, p, c);
  }

  lemma {:induction false} SameOutlined(f: Func, cuts: seq<Cut>, n: nat)
    requires WellFormed(f) && NoCalls(f.ops) && n <= |cuts| && AllFit(f, cuts, n)
    ensures Same(f, Outlined(f, cuts, n), map[])
  {
    hide Fits, WellFormed, Same, After, Callee;
    if n == 0 {
      SameAtFirst(f);
    } else {
      SameOutlined(f, cuts, n - 1);
      OutlinedIntact(f, cuts, n - 1);
      assert FitsAt(f, cuts, n - 1);
      FitsIndex(Outlined(f, cuts, n - 1).main, cuts[n - 1]);
      SameNext(f, Outlined(f, cuts, n - 1), cuts[n - 1]);
    }
  }

  /* Inlining a call */

  function Shifted(ids: set<nat>, base: nat): set<nat> {
    set id | id in ids :: base + id
  }

  // The clones of a function's ops were the ops themselves.
  function MoreOrigins(org: map<nat, nat>, k: Func, base: nat): map<nat, nat> {
    org + map j | j in Shifted(InnerIds(k), base) && j >= base :: j - base
  }

  lemma CloneOrigin(org: map<nat, nat>, k: Func, base: nat, d: Op)
    requires d in k.ops && IsInner(d)
    ensures Origin(MoreOrigins(org, k, base), base + d.id) == d.id
  {
    assert d.id in InnerIds(k);
    assert base + d.id in Shifted(InnerIds(k), base);
  }

  lemma OldOrigin(org: map<nat, nat>, k: Func, base: nat, id: nat)
    requires id < base
    ensures Origin(MoreOrigins(org, k, base), id) == Origin(org, id)
  {}

  // A call at its turn, of a program that still is the function.
  ghost predicate AtCall(f: Func, p: Program, org: map<nat, nat>, at: nat, c: nat, base: nat) {
    && c < |p.consts| && I.CallsIt(p.main, at, p.consts[c]) && at < |p.main.ops| && p.consts[c].ops != []
    && U.Calls(p.main.ops[at], c) && I.Above(p.main.ops, base)
    && Same(f, p, org)
    && (forall op :: op in p.main.ops && U.Calls(op, c) ==> op == p.main.ops[at])
    && (forall op :: op in p.main.ops ==> U.Matches(op, p.consts))
  }

  function NextInlined(p: Program, at: nat, c: nat, base: nat): Program
    requires c < |p.consts| && at < |p.main.ops| && p.consts[c].ops != []
  {
    Program(I.Inlined(p.main, at, p.consts[c], base), p.consts)
  }

  lemma InlinedFind(g: Func, at: nat, k: Func, base: nat, q: Op)
    requires I.CallsIt(g, at, k) && I.Above(g.ops, base) && q in g.ops && q.id != g.ops[at].id
    ensures FindOp(I.Inlined(g, at, k, base).ops, q.id) == Some(I.ForwardOp(g.ops[at].id, I.Rets(base, g.ops[at].operands, k))(q))
  {
    hide Ordered, EndsInTerminator, FromShared, FindOp, I.Inlined, I.Clones, I.Rets, I.Above;
    var x := I.ForwardOp(g.ops[at].id, I.Rets(base, g.ops[at].operands, k))(q);
    I.InlinedWellFormed(g, at, k, base);
    I.InlinedMembers(g, at, k, base, x);
    FoundOp(I.Inlined(g, at, k, base).args, I.Inlined(g, at, k, base).ops, x);
  }

  lemma InlinedFindClone(g: Func, at: nat, k: Func, base: nat, d: Op)
    requires I.CallsIt(g, at, k) && I.Above(g.ops, base) && d in Front(k.ops)
    ensures FindOp(I.Inlined(g, at, k, base).ops, base + d.id) == Some(I.LiftOp(base, g.ops[at].operands)(d))
  {
    hide Ordered, EndsInTerminator, FromShared, FindOp, I.Inlined, I.Clones, I.Rets, I.Above;
    var x := I.LiftOp(base, g.ops[at].operands)(d);
    I.InlinedWellFormed(g, at, k, base);
    I.ClonedIn(k, base, g.ops[at].operands, d);
    I.InlinedMembers(g, at, k, base, x);
    FoundOp(I.Inlined(g, at, k, base).args, I.Inlined(g, at, k, base).ops, x);
  }

  lemma CallReadsArgs(f: Func, p: Program, org: map<nat, nat>, call: Op)
    requires Same(f, p, org) && call in p.main.ops && call.kind.LoadCached?
    ensures ReadsArgsOnly(call)
  {
    hide OuterCopies, OnePlace, SomePlace, Keys;
    assert InnerCopiesAt(f, p.consts, call);
  }

  // Lifted into the caller, an operand of the function refers to what it did inside.
  lemma LiftedRef(f: Func, p: Program, org: map<nat, nat>, at: nat, c: nat, base: nat, op: Op, v: Value)
    requires AtCall(f, p, org, at, c, base) && op in p.consts[c].ops && v in op.operands
    ensures OuterRef(NextInlined(p, at, c, base).main.ops, p.consts, MoreOrigins(org, p.consts[c], base), I.Lifted(base, p.main.ops[at].operands, v))
            == InnerRef(p.consts[c], p.main.ops[at].operands, v)
  {
    hide Ordered, EndsInTerminator, FromShared, FindOp, I.Inlined, I.Above, Same, MoreOrigins, U.Matches;
    var k, call := p.consts[c], p.main.ops[at];
    OperandDefined(k.args, k.ops, op, v);
    assert call in p.main.ops;
    CallReadsArgs(f, p, org, call);
    match v
    case Arg(i) =>
      assert call.operands[i] in call.operands;
    case Res(_, _) =>
      var d :| d in k.ops && Defines(d, v);
      NotLast(k, d);
      FoundOp(k.args, k.ops, d);
      InlinedFindClone(p.main, at, k, base, d);
      if !d.kind.Shared? {
        CloneOrigin(org, k, base, d);
      }
  }

  lemma NotLast(k: Func, d: Op)
    requires WellFormed(k) && d in k.ops && d.results > 0
    ensures d in Front(k.ops) && !d.kind.Terminator?
  {
    assert k.ops == Front(k.ops) + [Last(k.ops)];
  }

  lemma OuterRefsAre(ops: seq<Op>, consts: seq<Func>, org: map<nat, nat>, vs: seq<Value>, refs: seq<Ref>)
    requires |refs| == |vs| && forall i :: 0 <= i < |vs| ==> OuterRef(ops, consts, org, vs[i]) == refs[i]
    ensures OuterRefs(ops, consts, org, vs) == refs
  {
    hide OuterRef;
  }

  lemma LiftedRefs(f: Func, p: Program, org: map<nat, nat>, at: nat, c: nat, base: nat, op: Op)
    requires AtCall(f, p, org, at, c, base) && op in p.consts[c].ops
    ensures OuterRefs(NextInlined(p, at, c, base).main.ops, p.consts, MoreOrigins(org, p.consts[c], base), I.LiftedAll(base, p.main.ops[at].operands, op.operands))
            == InnerRefs(p.consts[c], p.main.ops[at].operands, op.operands)
  {
    hide Same, I.CallsIt, I.Above, U.Matches, OuterRef, InnerRef, I.Inlined, I.Lifted, MoreOrigins, OuterRefs;
    var operands := p.main.ops[at].operands;
    var ops, more := NextInlined(p, at, c, base).main.ops, MoreOrigins(org, p.consts[c], base);
    var x := I.LiftedAll(base, operands, op.operands);
    var refs := InnerRefs(p.consts[c], operands, op.operands);
    forall i | 0 <= i < |x|
      ensures OuterRef(ops, p.consts, more, x[i]) == refs[i]
    {
      assert op.operands[i] in op.operands;
      LiftedRef(f, p, org, at, c, base, op, op.operands[i]);
    }
    OuterRefsAre(ops, p.consts, more, x, refs);
  }

  // Forwarded or not, an operand of the caller refers to what it did.
  lemma ForwardedRef(f: Func, p: Program, org: map<nat, nat>, at: nat, c: nat, base: nat, op: Op, v: Value)
    requires AtCall(f, p, org, at, c, base) && op in p.main.ops && v in op.operands
    ensures OuterRef(NextInlined(p, at, c, base).main.ops, p.consts, MoreOrigins(org, p.consts[c], base),
                     I.Forward(p.main.ops[at].id, I.Rets(base, p.main.ops[at].operands, p.consts[c]), v))
            == OuterRef(p.main.ops, p.consts, org, v)
  {
    hide Ordered, EndsInTerminator, FromShared, FindOp, I.Inlined, Same, MoreOrigins, I.LiftedAll;
    var g, k, call := p.main, p.consts[c], p.main.ops[at];
    assert call in g.ops;
    if v.Res? {
      OperandDefined(g.args, g.ops, op, v);
      var d :| d in g.ops && Defines(d, v);
      FoundOp(g.args, g.ops, d);
      if d.id == call.id {
        UniqueOp(g.args, g.ops, d, call);
        ForwardedRet(f, p, org, at, c, base, v.result);
      } else {
        InlinedFind(g, at, k, base, d);
        OldOrigin(org, k, base, d.id);
        if d.kind.LoadCached? {
          CallReadsArgs(f, p, org, d);
          I.ForwardNothing(call.id, I.Rets(base, call.operands, k), d);
        }
      }
    }
  }

  // What stands for a result of the call refers to what the function returns.
  lemma ForwardedRet(f: Func, p: Program, org: map<nat, nat>, at: nat, c: nat, base: nat, r: nat)
    requires AtCall(f, p, org, at, c, base) && r < p.main.ops[at].results
    ensures r < |I.Rets(base, p.main.ops[at].operands, p.consts[c])| && r < |Returned(p.consts[c])|
    ensures OuterRef(NextInlined(p, at, c, base).main.ops, p.consts, MoreOrigins(org, p.consts[c], base), I.Rets(base, p.main.ops[at].operands, p.consts[c])[r])
            == InnerRef(p.consts[c], p.main.ops[at].operands, Returned(p.consts[c])[r])
  {
    hide WellFormed, I.Inlined, Same, MoreOrigins, OuterRef, InnerRef, I.Above, U.Matches;
    var k := p.consts[c];
    assert Last(k.ops) in k.ops && Returned(k)[r] in Last(k.ops).operands;
    LiftedRef(f, p, org, at, c, base, Last(k.ops), Returned(k)[r]);
  }

  lemma ForwardedRefs(f: Func, p: Program, org: map<nat, nat>, at: nat, c: nat, base: nat, op: Op)
    requires AtCall(f, p, org, at, c, base) && op in p.main.ops
    ensures OuterRefs(NextInlined(p, at, c, base).main.ops, p.consts, MoreOrigins(org, p.consts[c], base),
                      I.ForwardAll(p.main.ops[at].id, I.Rets(base, p.main.ops[at].operands, p.consts[c]), op.operands))
            == OuterRefs(p.main.ops, p.consts, org, op.operands)
  {
    hide Same, I.CallsIt, I.Above, U.Matches, OuterRef, I.Inlined, I.Forward, MoreOrigins, I.Rets;
    var call, rets := p.main.ops[at].id, I.Rets(base, p.main.ops[at].operands, p.consts[c]);
    var ops, more := NextInlined(p, at, c, base).main.ops, MoreOrigins(org, p.consts[c], base);
    var x := I.ForwardAll(call, rets, op.operands);
    var refs := OuterRefs(p.main.ops, p.consts, org, op.operands);
    forall i | 0 <= i < |x|
      ensures OuterRef(ops, p.consts, more, x[i]) == refs[i]
    {
      assert op.operands[i] in op.operands;
      ForwardedRef(f, p, org, at, c, base, op, op.operands[i]);
    }
    OuterRefsAre(ops, p.consts, more, x, refs);
  }

  lemma OuterCopyStays(f: Func, p: Program, org: map<nat, nat>, at: nat, c: nat, base: nat, op: Op)
    requires AtCall(f, p, org, at, c, base) && op in p.main.ops && op.id != p.main.ops[at].id && IsOuter(op)
    ensures IsOuterCopy(f, NextInlined(p, at, c, base), MoreOrigins(org, p.consts[c], base),
                        I.ForwardOp(p.main.ops[at].id, I.Rets(base, p.main.ops[at].operands, p.consts[c]))(op))
  {
    hide I.CallsIt, U.Matches, OuterRefs, I.Inlined, I.ForwardAll, MoreOrigins, I.Rets, Copies, InnerCopies, OnePlace, SomePlace, Keys;
    var refs := OuterRefs(p.main.ops, p.consts, org, op.operands);
    var q :| q in f.ops && q.id == Origin(org, op.id) && Copies(op, refs, q, f);
    var x := I.ForwardOp(p.main.ops[at].id, I.Rets(base, p.main.ops[at].operands, p.consts[c]))(op);
    ForwardedRefs(f, p, org, at, c, base, op);
    CopiesRefs(op, x, refs, q, f);
    OldOrigin(org, p.consts[c], base, op.id);
  }

  lemma OuterCopyNew(f: Func, p: Program, org: map<nat, nat>, at: nat, c: nat, base: nat, d: Op)
    requires AtCall(f, p, org, at, c, base) && d in p.consts[c].ops && IsInner(d)
    ensures IsOuterCopy(f, NextInlined(p, at, c, base), MoreOrigins(org, p.consts[c], base), I.LiftOp(base, p.main.ops[at].operands)(d))
  {
    hide I.CallsIt, U.Matches, InnerRefs, OuterRefs, I.Inlined, I.LiftedAll, MoreOrigins, Copies, OuterCopies, OnePlace, SomePlace, Keys;
    var k, call := p.consts[c], p.main.ops[at];
    assert InnerCopiesAt(f, p.consts, call);
    var refs := InnerRefs(k, call.operands, d.operands);
    var q :| q in f.ops && q.id == d.id && Copies(d, refs, q, f);
    var x := I.LiftOp(base, call.operands)(d);
    LiftedRefs(f, p, org, at, c, base, d);
    CopiesRefs(d, x, refs, q, f);
    CloneOrigin(org, k, base, d);
  }

  lemma OuterCopiesInlined(f: Func, p: Program, org: map<nat, nat>, at: nat, c: nat, base: nat)
    requires AtCall(f, p, org, at, c, base)
    ensures OuterCopies(f, NextInlined(p, at, c, base), MoreOrigins(org, p.consts[c], base))
  {
    hide WellFormed, NoCalls, Same, U.Matches, I.Inlined, I.LiftedAll, I.ForwardAll, MoreOrigins, IsOuterCopy, I.Rets, I.Clones;
    var n := NextInlined(p, at, c, base);
    forall x | x in n.main.ops && IsOuter(x)
      ensures IsOuterCopy(f, n, MoreOrigins(org, p.consts[c], base), x)
    {
      I.InlinedMembers(p.main, at, p.consts[c], base, x);
      if x in I.Clones(base, p.main.ops[at].operands, p.consts[c]) {
        var d := I.CloneSource(p.consts[c], base, p.main.ops[at].operands, x);
        InFrontIsInner(p.consts[c], d);
        OuterCopyNew(f, p, org, at, c, base, d);
      } else {
        var op :| op in p.main.ops && op.id != p.main.ops[at].id
          && x == I.ForwardOp(p.main.ops[at].id, I.Rets(base, p.main.ops[at].operands, p.consts[c]))(op);
        OuterCopyStays(f, p, org, at, c, base, op);
      }
    }
  }

  lemma InFrontIsInner(k: Func, d: Op)
    requires WellFormed(k) && d in Front(k.ops)
    ensures !d.kind.Terminator?
  {
    hide Ordered, FromShared;
  }

  // The calls left are as they were.
  lemma CallsLeft(f: Func, p: Program, org: map<nat, nat>, at: nat, c: nat, base: nat, x: Op)
    requires AtCall(f, p, org, at, c, base)
    ensures x in NextInlined(p, at, c, base).main.ops && x.kind.LoadCached? <==> x in p.main.ops && x.kind.LoadCached? && !U.Calls(x, c)
  {
    hide WellFormed, OuterCopies, OnePlace, SomePlace, Keys, U.Matches, I.Inlined, I.LiftedAll, I.ForwardAll, I.Rets, I.Clones, I.Above;
    var g, k, call := p.main, p.consts[c], p.main.ops[at];
    assert call in g.ops;
    I.InlinedMembers(g, at, k, base, x);
    if x in NextInlined(p, at, c, base).main.ops && x.kind.LoadCached? {
      if x in I.Clones(base, call.operands, k) {
        var d := I.CloneSource(k, base, call.operands, x);
        assert false;
      }
      var op :| op in g.ops && op.id != call.id && x == I.ForwardOp(call.id, I.Rets(base, call.operands, k))(op);
      CallReadsArgs(f, p, org, op);
      I.ForwardNothing(call.id, I.Rets(base, call.operands, k), op);
    }
    if x in g.ops && x.kind.LoadCached? && !U.Calls(x, c) {
      CallReadsArgs(f, p, org, x);
      I.ForwardNothing(call.id, I.Rets(base, call.operands, k), x);
      U.CallsApart(g, at, x);
    }
  }

  lemma InnerCopiesInlined(f: Func, p: Program, org: map<nat, nat>, at: nat, c: nat, base: nat)
    requires AtCall(f, p, org, at, c, base)
    ensures InnerCopies(f, NextInlined(p, at, c, base))
  {
    hide I.CallsIt, U.Matches, I.Inlined, I.Above, OuterCopies, OnePlace, SomePlace, Keys, InnerCopiesAt;
    forall x | x in NextInlined(p, at, c, base).main.ops && x.kind.LoadCached?
      ensures InnerCopiesAt(f, p.consts, x)
    {
      CallsLeft(f, p, org, at, c, base, x);
    }
  }

  lemma CalledInlined(f: Func, p: Program, org: map<nat, nat>, at: nat, c: nat, base: nat, d: nat)
    requires AtCall(f, p, org, at, c, base)
    ensures U.IsCalled(NextInlined(p, at, c, base).main.ops, d) <==> U.IsCalled(p.main.ops, d) && d != c
  {
    hide I.CallsIt, U.Matches, I.Inlined, I.Above, Same;
    var ops := NextInlined(p, at, c, base).main.ops;
    if x :| x in ops && U.Calls(x, d) {
      CallsLeft(f, p, org, at, c, base, x);
    }
    if x :| x in p.main.ops && U.Calls(x, d) && d != c {
      CallsLeft(f, p, org, at, c, base, x);
      assert U.Calls(x, d);
    }
  }

  lemma OuterIdsInlined(f: Func, p: Program, org: map<nat, nat>, at: nat, c: nat, base: nat, id: nat)
    requires AtCall(f, p, org, at, c, base)
    ensures id in OuterIds(NextInlined(p, at, c, base).main.ops, MoreOrigins(org, p.consts[c], base))
            <==> id in OuterIds(p.main.ops, org) || id in InnerIds(p.consts[c])
  {
    hide WellFormed, NoCalls, Same, U.Matches, I.Inlined, I.LiftedAll, I.ForwardAll, MoreOrigins, I.Rets, I.Clones;
    var g, k, call := p.main, p.consts[c], p.main.ops[at];
    var n, more := NextInlined(p, at, c, base), MoreOrigins(org, k, base);
    if id in OuterIds(n.main.ops, more) {
      var x :| x in n.main.ops && IsOuter(x) && Origin(more, x.id) == id;
      OuterSource(f, p, org, at, c, base, x);
    }
    if id in OuterIds(g.ops, org) {
      var op :| op in g.ops && IsOuter(op) && Origin(org, op.id) == id;
      var x := I.ForwardOp(call.id, I.Rets(base, call.operands, k))(op);
      U.CallsApart(g, at, op);
      I.InlinedMembers(g, at, k, base, x);
      OldOrigin(org, k, base, op.id);
      assert x in n.main.ops && IsOuter(x);
    }
    if id in InnerIds(k) {
      var d :| d in k.ops && IsInner(d) && d.id == id;
      InnerInFront(k, d);
      var x := I.LiftOp(base, call.operands)(d);
      I.ClonedIn(k, base, call.operands, d);
      I.InlinedMembers(g, at, k, base, x);
      CloneOrigin(org, k, base, d);
      assert x in n.main.ops && IsOuter(x);
    }
  }

  lemma InnerInFront(k: Func, d: Op)
    requires WellFormed(k) && NoCalls(k.ops) && d in k.ops && IsInner(d)
    ensures d in Front(k.ops) && !d.kind.LoadCached?
  {
    hide Ordered, FromShared;
    assert k.ops == Front(k.ops) + [Last(k.ops)];
  }

  // Where an op of the new body comes from.
  lemma OuterSource(f: Func, p: Program, org: map<nat, nat>, at: nat, c: nat, base: nat, x: Op)
    requires AtCall(f, p, org, at, c, base) && x in NextInlined(p, at, c, base).main.ops && IsOuter(x)
    ensures var id := Origin(MoreOrigins(org, p.consts[c], base), x.id);
      if x.id < base then id in OuterIds(p.main.ops, org) && exists op :: op in p.main.ops && IsOuter(op) && op.id == x.id && id == Origin(org, op.id)
      else id in InnerIds(p.consts[c]) && x.id == base + id
  {
    hide WellFormed, NoCalls, Same, U.Matches, I.Inlined, I.LiftedAll, I.ForwardAll, MoreOrigins, I.Rets, I.Clones;
    var g, k, call := p.main, p.consts[c], p.main.ops[at];
    I.InlinedMembers(g, at, k, base, x);
    if x in I.Clones(base, call.operands, k) {
      var d := I.CloneSource(k, base, call.operands, x);
      InFrontIsInner(k, d);
      CloneOrigin(org, k, base, d);
      assert d.id in InnerIds(k);
    } else {
      var op :| op in g.ops && op.id != call.id && x == I.ForwardOp(call.id, I.Rets(base, call.operands, k))(op);
      OldOrigin(org, k, base, op.id);
      assert IsOuter(op);
    }
  }

  lemma OnePlaceInlined(f: Func, p: Program, org: map<nat, nat>, at: nat, c: nat, base: nat)
    requires AtCall(f, p, org, at, c, base)
    ensures OnePlace(f, NextInlined(p, at, c, base), MoreOrigins(org, p.consts[c], base))
  {
    hide I.CallsIt, I.Above, U.Matches, I.Inlined, MoreOrigins, OuterCopies, InnerCopies, SomePlace, Keys, OuterIds, InnerIds, U.IsCalled;
    var n, more := NextInlined(p, at, c, base), MoreOrigins(org, p.consts[c], base);
    CallIsCalled(p, at, c);
    forall x, y | x in n.main.ops && y in n.main.ops && IsOuter(x) && IsOuter(y) && Origin(more, x.id) == Origin(more, y.id)
      ensures x == y
    {
      OuterSource(f, p, org, at, c, base, x);
      OuterSource(f, p, org, at, c, base, y);
      assert x.id == y.id;
      NextUnique(f, p, org, at, c, base, x, y);
    }
    forall d | 0 <= d < |n.consts| && U.IsCalled(n.main.ops, d)
      ensures OuterIds(n.main.ops, more) !! InnerIds(n.consts[d])
    {
      CalledInlined(f, p, org, at, c, base, d);
      forall id | id in OuterIds(n.main.ops, more)
        ensures id !in InnerIds(n.consts[d])
      {
        OuterIdsInlined(f, p, org, at, c, base, id);
        assert if c < d then InnerIds(p.consts[c]) !! InnerIds(p.consts[d]) else InnerIds(p.consts[d]) !! InnerIds(p.consts[c]);
      }
    }
    forall d, e | 0 <= d < e < |n.consts| && U.IsCalled(n.main.ops, d) && U.IsCalled(n.main.ops, e)
      ensures InnerIds(n.consts[d]) !! InnerIds(n.consts[e])
    {
      CalledInlined(f, p, org, at, c, base, d);
      CalledInlined(f, p, org, at, c, base, e);
    }
  }

  lemma CallIsCalled(p: Program, at: nat, c: nat)
    requires at < |p.main.ops| && U.Calls(p.main.ops[at], c)
    ensures U.IsCalled(p.main.ops, c)
  {
    assert p.main.ops[at] in p.main.ops;
  }

  lemma NextUnique(f: Func, p: Program, org: map<nat, nat>, at: nat, c: nat, base: nat, x: Op, y: Op)
    requires AtCall(f, p, org, at, c, base)
    requires x in NextInlined(p, at, c, base).main.ops && y in NextInlined(p, at, c, base).main.ops && x.id == y.id
    ensures x == y
  {
    hide I.CallsIt, I.Above, U.Matches, I.Inlined, Same, Ordered, EndsInTerminator, FromShared;
    var n := NextInlined(p, at, c, base);
    I.InlinedWellFormed(p.main, at, p.consts[c], base);
    UniqueOp(n.main.args, n.main.ops, x, y);
  }

  lemma SomePlaceInlined(f: Func, p: Program, org: map<nat, nat>, at: nat, c: nat, base: nat)
    requires AtCall(f, p, org, at, c, base)
    ensures SomePlace(f, NextInlined(p, at, c, base), MoreOrigins(org, p.consts[c], base))
  {
    hide I.CallsIt, I.Above, U.Matches, I.Inlined, MoreOrigins, OuterCopies, InnerCopies, OnePlace, Keys, OuterIds, InnerIds, U.IsCalled;
    var n, more := NextInlined(p, at, c, base), MoreOrigins(org, p.consts[c], base);
    forall q | q in f.ops && !q.kind.Shared?
      ensures q.id in OuterIds(n.main.ops, more) || exists d :: 0 <= d < |n.consts| && U.IsCalled(n.main.ops, d) && q.id in InnerIds(n.consts[d])
    {
      OuterIdsInlined(f, p, org, at, c, base, q.id);
      if q.id !in OuterIds(n.main.ops, more) {
        var d :| 0 <= d < |p.consts| && U.IsCalled(p.main.ops, d) && q.id in InnerIds(p.consts[d]);
        CalledInlined(f, p, org, at, c, base, d);
      }
    }
  }

  lemma OldKeysInlined(f: Func, g: Func, at: nat, k: Func, base: nat)
    requires I.CallsIt(g, at, k) && I.Above(g.ops, base) && OldKeys(f, g.ops) && OldKeys(f, k.ops)
    ensures OldKeys(f, I.Inlined(g, at, k, base).ops)
  {
    hide WellFormed, NoCalls, I.Above, I.Inlined, I.Clones, I.Rets, I.LiftedAll, I.ForwardAll;
    forall x | x in I.Inlined(g, at, k, base).ops && x.kind.Shared?
      ensures exists q :: q in f.ops && q.kind.Shared? && Dedup.SameKey(x, q)
    {
      I.InlinedMembers(g, at, k, base, x);
      if x in I.Clones(base, g.ops[at].operands, k) {
        var d := I.CloneSource(k, base, g.ops[at].operands, x);
        var q :| q in f.ops && q.kind.Shared? && Dedup.SameKey(d, q);
        assert Dedup.SameKey(x, q);
      } else {
        var op :| op in g.ops && op.id != g.ops[at].id && x == I.ForwardOp(g.ops[at].id, I.Rets(base, g.ops[at].operands, k))(op);
        var q :| q in f.ops && q.kind.Shared? && Dedup.SameKey(op, q);
        assert Dedup.SameKey(x, q);
      }
    }
  }

  lemma AllKeysInlined(f: Func, g: Func, at: nat, k: Func, base: nat)
    requires I.CallsIt(g, at, k) && I.Above(g.ops, base) && AllKeys(f, g.ops)
    ensures AllKeys(f, I.Inlined(g, at, k, base).ops)
  {
    hide Ordered, EndsInTerminator, FromShared, NoCalls, I.Above, I.Inlined, I.Clones, I.Rets, I.ForwardAll;
    forall q | q in f.ops && q.kind.Shared?
      ensures exists x :: x in I.Inlined(g, at, k, base).ops && x.kind.Shared? && Dedup.SameKey(x, q)
    {
      var op :| op in g.ops && op.kind.Shared? && Dedup.SameKey(op, q);
      U.CallsApart(g, at, op);
      var x := I.ForwardOp(g.ops[at].id, I.Rets(base, g.ops[at].operands, k))(op);
      I.InlinedMembers(g, at, k, base, x);
      assert Dedup.SameKey(x, q);
    }
  }

  // Inlining one function keeps the program the same function.
  lemma SameInlined(f: Func, p: Program, org: map<nat, nat>, at: nat, c: nat, base: nat)
    requires AtCall(f, p, org, at, c, base)
    ensures Same(f, NextInlined(p, at, c, base), MoreOrigins(org, p.consts[c], base))
  {
    hide I.CallsIt, I.Above, U.Matches, I.Inlined, MoreOrigins, OuterCopies, InnerCopies, OnePlace, SomePlace, OldKeys, AllKeys;
    OuterCopiesInlined(f, p, org, at, c, base);
    InnerCopiesInlined(f, p, org, at, c, base);
    OnePlaceInlined(f, p, org, at, c, base);
    SomePlaceInlined(f, p, org, at, c, base);
    OldKeysInlined(f, p.main, at, p.consts[c], base);
    AllKeysInlined(f, p.main, at, p.consts[c], base);
    U.InlinedArgs(p.main, at, p.consts[c], base);
  }

  /* Deduplicating */

  lemma DedupFind(g: Func, op: Op)
    requires WellFormed(g) && Dedup.SameResults(g.ops) && op in g.ops && op.id !in Dedup.Dups(g.ops)
    ensures FindOp(Dedup.Deduplicated(g).ops, op.id) == Some(Dedup.MergeOp(Dedup.Dups(g.ops))(op))
  {
    hide Ordered, EndsInTerminator, FromShared, FindOp, Dedup.Dups, Dedup.Deduplicated, Dedup.SameResults, Dedup.MergeAll;
    var x := Dedup.MergeOp(Dedup.Dups(g.ops))(op);
    Dedup.DeduplicatedWellFormed(g);
    Dedup.DeduplicatedMembers(g, x);
    FoundOp(Dedup.Deduplicated(g).args, Dedup.Deduplicated(g).ops, x);
  }

  lemma MergedRef(g: Func, org: map<nat, nat>, op: Op, v: Value)
    requires WellFormed(g) && Dedup.SameResults(g.ops) && op in g.ops && v in op.operands
    ensures RefOf(Dedup.Deduplicated(g).ops, org, Dedup.Merge(Dedup.Dups(g.ops), v)) == RefOf(g.ops, org, v)
  {
    hide Ordered, EndsInTerminator, FromShared, FindOp, Dedup.Dups, Dedup.Deduplicated, Dedup.FirstWith;
    if v.Res? {
      OperandDefined(g.args, g.ops, op, v);
      var d :| d in g.ops && Defines(d, v);
      FoundOp(g.args, g.ops, d);
      if d.id in Dedup.Dups(g.ops) {
        assert g.ops[..|g.ops|] == g.ops;
        var first := Dedup.MergedIsEarlier(g, |g.ops|, d);
        DedupFind(g, first);
      } else {
        DedupFind(g, d);
      }
    }
  }

  lemma RefsAre(ops: seq<Op>, org: map<nat, nat>, vs: seq<Value>, refs: seq<Ref>)
    requires |refs| == |vs| && forall i :: 0 <= i < |vs| ==> RefOf(ops, org, vs[i]) == refs[i]
    ensures RefsOf(ops, org, vs) == refs
  {
    hide RefOf;
  }

  lemma MergedRefs(g: Func, org: map<nat, nat>, op: Op)
    requires WellFormed(g) && Dedup.SameResults(g.ops) && op in g.ops
    ensures RefsOf(Dedup.Deduplicated(g).ops, org, Dedup.MergeAll(Dedup.Dups(g.ops), op.operands)) == RefsOf(g.ops, org, op.operands)
  {
    hide WellFormed, Dedup.SameResults, RefOf, Dedup.Deduplicated, Dedup.Dups, Dedup.Merge;
    var x := Dedup.MergeAll(Dedup.Dups(g.ops), op.operands);
    var refs := RefsOf(g.ops, org, op.operands);
    forall i | 0 <= i < |x|
      ensures RefOf(Dedup.Deduplicated(g).ops, org, x[i]) == refs[i]
    {
      assert op.operands[i] in op.operands;
      MergedRef(g, org, op, op.operands[i]);
    }
    RefsAre(Dedup.Deduplicated(g).ops, org, x, refs);
  }

  // Without calls, an operand refers to what it reads.
  lemma PlainRefs(ops: seq<Op>, consts: seq<Func>, org: map<nat, nat>, vs: seq<Value>)
    requires NoCalls(ops)
    ensures OuterRefs(ops, consts, org, vs) == RefsOf(ops, org, vs)
  {
    hide RefOf, FindOp;
    forall i | 0 <= i < |vs|
      ensures OuterRef(ops, consts, org, vs[i]) == RefOf(ops, org, vs[i])
    {
      if vs[i].Res? {
        FoundIsThere(ops, vs[i].op);
      }
    }
  }

  lemma PlainSource(f: Func, p: Program, org: map<nat, nat>, x: Op) returns (op: Op, q: Op)
    requires OuterCopies(f, p, org) && WellFormed(p.main) && NoCalls(p.main.ops) && Dedup.SameResults(p.main.ops)
    requires x in Dedup.Deduplicated(p.main).ops && !x.kind.Shared?
    ensures op in p.main.ops && IsOuter(op) && op.id == x.id && x == Dedup.MergeOp(Dedup.Dups(p.main.ops))(op)
    ensures q in f.ops && q.id == Origin(org, x.id) && Copies(x, RefsOf(Dedup.Deduplicated(p.main).ops, org, x.operands), q, f)
  {
    hide WellFormed, OuterRefs, Copies, RefsOf, Dedup.Dups, Dedup.Deduplicated, Dedup.MergeAll, Dedup.SameResults;
    Dedup.DeduplicatedMembers(p.main, x);
    op :| op in p.main.ops && op.id !in Dedup.Dups(p.main.ops) && x == Dedup.MergeOp(Dedup.Dups(p.main.ops))(op);
    assert IsOuterCopy(f, p, org, op);
    q :| q in f.ops && q.id == Origin(org, op.id) && Copies(op, OuterRefs(p.main.ops, p.consts, org, op.operands), q, f);
    PlainRefs(p.main.ops, p.consts, org, op.operands);
    MergedRefs(p.main, org, op);
    CopiesRefs(op, x, RefsOf(p.main.ops, org, op.operands), q, f);
  }

  lemma KeysDeduplicated(f: Func, g: Func)
    requires WellFormed(g) && Dedup.SameResults(g.ops)
    ensures OldKeys(f, g.ops) ==> OldKeys(f, Dedup.Deduplicated(g).ops)
    ensures AllKeys(f, g.ops) ==> AllKeys(f, Dedup.Deduplicated(g).ops)
  {
    hide Ordered, FromShared, EndsInTerminator, Dedup.Dups, Dedup.Deduplicated, Dedup.MergeAll, Dedup.SameResults;
    if OldKeys(f, g.ops) {
      forall x | x in Dedup.Deduplicated(g).ops && x.kind.Shared?
        ensures exists q :: q in f.ops && q.kind.Shared? && Dedup.SameKey(x, q)
      {
        Dedup.DeduplicatedMembers(g, x);
        var op :| op in g.ops && op.id !in Dedup.Dups(g.ops) && x == Dedup.MergeOp(Dedup.Dups(g.ops))(op);
        var q :| q in f.ops && q.kind.Shared? && Dedup.SameKey(op, q);
        assert Dedup.SameKey(x, q);
      }
    }
    if AllKeys(f, g.ops) {
      forall q | q in f.ops && q.kind.Shared?
        ensures exists x :: x in Dedup.Deduplicated(g).ops && x.kind.Shared? && Dedup.SameKey(x, q)
      {
        var op :| op in g.ops && op.kind.Shared? && Dedup.SameKey(op, q);
        var x := Dedup.DeduplicatedKeepsKeys(g, op);
        assert Dedup.SameKey(x, q);
      }
    }
  }

  ghost predicate Settled(f: Func, p: Program, org: map<nat, nat>) {
    Same(f, p, org) && WellFormed(p.main) && NoCalls(p.main.ops) && Dedup.SameResults(p.main.ops)
  }

  lemma SettledCopies(f: Func, p: Program, org: map<nat, nat>)
    requires Settled(f, p, org)
    ensures CopiesOps(f, Dedup.Deduplicated(p.main), org)
  {
    hide WellFormed, NoCalls, RefsOf, Copies, Dedup.Deduplicated, Dedup.Dups, Dedup.MergeAll, Dedup.SameResults, OuterCopies, InnerCopies, OnePlace, SomePlace, Keys;
    var u := Dedup.Deduplicated(p.main);
    forall x | x in u.ops && !x.kind.Shared?
      ensures exists q :: q in f.ops && q.id == Origin(org, x.id) && Copies(x, RefsOf(u.ops, org, x.operands), q, f)
    {
      var op, q := PlainSource(f, p, org, x);
    }
  }

  lemma SettledOneToOne(f: Func, p: Program, org: map<nat, nat>)
    requires Settled(f, p, org)
    ensures OneToOne(Dedup.Deduplicated(p.main), org)
  {
    hide WellFormed, NoCalls, RefsOf, Copies, Dedup.Deduplicated, Dedup.Dups, Dedup.MergeAll, Dedup.SameResults, OuterCopies, InnerCopies, SomePlace, Keys, OuterIds, InnerIds;
    var u := Dedup.Deduplicated(p.main);
    forall x, y | x in u.ops && y in u.ops && !x.kind.Shared? && !y.kind.Shared? && Origin(org, x.id) == Origin(org, y.id)
      ensures x == y
    {
      var a, qa := PlainSource(f, p, org, x);
      var b, qb := PlainSource(f, p, org, y);
    }
  }

  lemma SettledOnto(f: Func, p: Program, org: map<nat, nat>)
    requires Settled(f, p, org)
    ensures Onto(f, Dedup.Deduplicated(p.main), org)
  {
    hide WellFormed, NoCalls, Dedup.Deduplicated, Dedup.SameResults, Same;
    forall q | q in f.ops && !q.kind.Shared?
      ensures exists x :: x in Dedup.Deduplicated(p.main).ops && !x.kind.Shared? && Origin(org, x.id) == q.id
    {
      var x := PlaceIsPlain(f, p, org, q);
    }
  }

  // Once every call is inlined and the duplicates are merged, the function is back under other numbers.
  lemma DeduplicatedIsRenamed(f: Func, p: Program, org: map<nat, nat>)
    requires Settled(f, p, org)
    ensures Renamed(f, Dedup.Deduplicated(p.main), org)
  {
    hide WellFormed, NoCalls, Dedup.Deduplicated, Dedup.SameResults, OuterCopies, InnerCopies, OnePlace, SomePlace, OldKeys, AllKeys, CopiesOps, OneToOne, Onto;
    SettledCopies(f, p, org);
    SettledOneToOne(f, p, org);
    SettledOnto(f, p, org);
    KeysDeduplicated(f, p.main);
    DeduplicatedArgs(p.main);
  }

  lemma DeduplicatedArgs(g: Func)
    ensures Dedup.Deduplicated(g).args == g.args && Dedup.Deduplicated(g).constArgs == g.constArgs
  {}

  lemma PlaceIsPlain(f: Func, p: Program, org: map<nat, nat>, q: Op) returns (x: Op)
    requires Same(f, p, org) && WellFormed(p.main) && NoCalls(p.main.ops) && q in f.ops && !q.kind.Shared?
    ensures x in Dedup.Deduplicated(p.main).ops && !x.kind.Shared? && Origin(org, x.id) == q.id
  {
    hide Ordered, FromShared, EndsInTerminator, Dedup.Dups, Dedup.Deduplicated, Dedup.MergeAll, OuterCopies, InnerCopies, Keys, OnePlace, InnerIds;
    assert forall c :: !U.IsCalled(p.main.ops, c);
    assert q.id in OuterIds(p.main.ops, org);
    var op :| op in p.main.ops && IsOuter(op) && Origin(org, op.id) == q.id;
    if op.id in Dedup.Dups(p.main.ops) {
      Dedup.OnlySharedAreDups(p.main, op);
    }
    x := Dedup.MergeOp(Dedup.Dups(p.main.ops))(op);
    Dedup.DeduplicatedMembers(p.main, x);
  }

  /* What the pass makes can be undone */

  ghost predicate Undoable(p: Program, arity: (string, Attributes) -> nat) {
    && U.Coherent(p) && U.SingleCalls(p.main.ops) && U.ProgramFollowsArity(p, arity)
    && forall d :: 0 <= d < |p.consts| ==> U.IsCalled(p.main.ops, d)
  }

  lemma UndoableAtFirst(f: Func, arity: (string, Attributes) -> nat)
    requires WellFormed(f) && NoCalls(f.ops) && U.FollowsArity(f.ops, arity)
    ensures Undoable(Program(f, []), arity)
  {
    hide WellFormed;
  }

  lemma MatchesMore(op: Op, consts: seq<Func>, k: Func)
    requires U.Matches(op, consts)
    ensures U.Matches(op, consts + [k])
  {}

  lemma MatchesRedirected(op: Op, c: Cut, consts: seq<Func>)
    requires U.Matches(op, consts)
    ensures U.Matches(RedirectOp(c.outputs, c.call)(op), consts)
  {}

  lemma NewCallMatches(g: Func, c: Cut, consts: seq<Func>)
    requires Fits(g, c) && c.index == |consts|
    ensures U.Matches(CallOp(c), consts + [Callee(g, c)]) && U.Leaf(Callee(g, c))
  {
    hide Fits, WellFormed, NoCalls;
    CalleeWellFormed(g, c);
  }

  lemma CoherentNext(f: Func, p: Program, c: Cut)
    requires AtCut(f, p, c) && U.Coherent(p)
    ensures U.Coherent(Next(p, c))
  {
    hide Fits, WellFormed, Same, CallsWithin, After, Callee, U.Matches, U.Leaf;
    var n := Next(p, c);
    AfterWellFormed(p.main, c);
    NewCallMatches(p.main, c, p.consts);
    forall x | x in n.main.ops
      ensures U.Matches(x, n.consts)
    {
      AfterMembers(p.main, c, x);
      if x != CallOp(c) {
        var op :| op in p.main.ops && op.id !in c.group && x == RedirectOp(c.outputs, c.call)(op);
        MatchesMore(op, p.consts, Callee(p.main, c));
        MatchesRedirected(op, c, n.consts);
      }
    }
  }

  lemma SingleCallsNext(f: Func, p: Program, c: Cut)
    requires AtCut(f, p, c) && U.SingleCalls(p.main.ops)
    ensures U.SingleCalls(Next(p, c).main.ops)
  {
    hide Fits, WellFormed, Same, After, Callee;
    var n := Next(p, c);
    forall x | x in n.main.ops && x.kind.LoadCached?
      ensures x == CallOp(c) || (x in p.main.ops && x.kind.callee < |p.consts|)
    {
      AfterMembers(p.main, c, x);
      if x != CallOp(c) {
        var op :| op in p.main.ops && op.id !in c.group && x == RedirectOp(c.outputs, c.call)(op);
        LoadUnchanged(f, p, c, op);
      }
    }
  }

  lemma ArityNext(p: Program, c: Cut, arity: (string, Attributes) -> nat)
    requires Fits(p.main, c) && c.index <= |p.main.ops| && U.ProgramFollowsArity(p, arity)
    ensures U.ProgramFollowsArity(Next(p, c), arity)
  {
    hide Fits, After, Callee;
    forall x | x in After(p.main, c).ops && x.kind.Shared?
      ensures x.results == arity(x.name, x.attrs)
    {
      AfterMembers(p.main, c, x);
    }
    forall x | x in Callee(p.main, c).ops && x.kind.Shared?
      ensures x.results == arity(x.name, x.attrs)
    {
      CalleeMembers(p.main, c, x);
    }
  }

  lemma UndoableNext(f: Func, p: Program, c: Cut, arity: (string, Attributes) -> nat)
    requires AtCut(f, p, c) && Undoable(p, arity)
    ensures Undoable(Next(p, c), arity)
  {
    hide Fits, WellFormed, Same, CallsWithin, After, Callee, U.Coherent, U.SingleCalls, U.ProgramFollowsArity, U.IsCalled;
    CoherentNext(f, p, c);
    SingleCallsNext(f, p, c);
    ArityNext(p, c, arity);
    forall d | 0 <= d < |Next(p, c).consts|
      ensures U.IsCalled(Next(p, c).main.ops, d)
    {
      CalledNext(p.main, c, d);
    }
  }

  lemma {:induction false} OutlinedIsUndoable(f: Func, cuts: seq<Cut>, n: nat, arity: (string, Attributes) -> nat)
    requires WellFormed(f) && NoCalls(f.ops) && n <= |cuts| && AllFit(f, cuts, n) && U.FollowsArity(f.ops, arity)
    ensures Undoable(Outlined(f, cuts, n), arity)
  {
    hide Fits, WellFormed, Same, After, Callee, Undoable;
    if n == 0 {
      UndoableAtFirst(f, arity);
    } else {
      OutlinedIsUndoable(f, cuts, n - 1, arity);
      SameOutlined(f, cuts, n - 1);
      OutlinedIntact(f, cuts, n - 1);
      assert FitsAt(f, cuts, n - 1);
      FitsIndex(Outlined(f, cuts, n - 1).main, cuts[n - 1]);
      UndoableNext(f, Outlined(f, cuts, n - 1), cuts[n - 1], arity);
    }
  }

  lemma UndoableHasCalls(p: Program, arity: (string, Attributes) -> nat)
    requires Undoable(p, arity)
    ensures U.OneCallEach(p.main.ops, 0, |p.consts|) && U.Coherent(p) && U.ProgramFollowsArity(p, arity)
  {
    hide WellFormed, U.IsCalled;
  }

  /* The whole undo */

  lemma {:induction false} SameInlinedAll(f: Func, p: Program, funcToCall: map<nat, nat>, arity: (string, Attributes) -> nat, n: nat) returns (org: map<nat, nat>)
    requires Same(f, p, map[]) && U.Coherent(p) && U.ProgramFollowsArity(p, arity)
    requires U.FoundCalls(p.main.ops, |p.consts|, funcToCall) && forall d :: 0 <= d < |p.consts| ==> d in funcToCall
    requires n <= |p.consts|
    ensures Same(f, Program(U.InlinedAll(p, n), p.consts), org)
    decreases n
  {
    hide WellFormed, Same, U.FoundCalls, U.Ready, I.Inlined, I.CallsIt, U.FollowsArity, U.InlinedAll, U.Matches, U.IsCalled, MoreOrigins;
    if n == 0 {
      U.InlinedNone(p);
      org := map[];
    } else {
      var c := n - 1;
      var before := SameInlinedAll(f, p, funcToCall, arity, c);
      U.ReadyAt(p, funcToCall, arity, c);
      var g := U.InlinedAll(p, c);
      assert p.consts[c] in p.consts;
      U.ReadyCall(g, p.consts, funcToCall, c, arity);
      U.InlinedNext(p, c);
      var at, base := U.CallPosition(g.ops, c), H.FreshId(g.ops);
      H.FreshIsNew(g.ops);
      ReadyIsOne(g, p.consts, funcToCall, c, arity, at);
      SameInlined(f, Program(g, p.consts), before, at, c, base);
      org := MoreOrigins(before, p.consts[c], base);
    }
  }

  lemma ReadyIsOne(g: Func, consts: seq<Func>, funcToCall: map<nat, nat>, c: nat, arity: (string, Attributes) -> nat, at: nat)
    requires U.Ready(g, consts, funcToCall, c, arity) && at < |g.ops| && U.Calls(g.ops[at], c)
    ensures forall op :: op in g.ops && U.Calls(op, c) ==> op == g.ops[at]
    ensures forall op :: op in g.ops ==> U.Matches(op, consts)
  {
    hide Ordered, FromShared, EndsInTerminator, U.Matches;
    assert g.ops[at] in g.ops;
    forall op | op in g.ops && U.Calls(op, c)
      ensures op == g.ops[at]
    {
      UniqueOp(g.args, g.ops, op, g.ops[at]);
    }
  }

  // Without const-eval functions there is nothing to undo.
  lemma NothingOutlined(f: Func, cuts: seq<Cut>)
    requires NoCalls(f.ops) && cuts == []
    ensures Outlined(f, cuts, 0) == Program(f, []) && U.Undone(Outlined(f, cuts, 0)) == Program(f, [])
    ensures U.OneCallEach(f.ops, 0, 0)
  {}

  // Undoing what the pass did gives the function back, up to numbers, order and duplicate shared ops.
  lemma UndoGivesBack(f: Func, cuts: seq<Cut>, arity: (string, Attributes) -> nat) returns (org: map<nat, nat>)
    requires WellFormed(f) && NoCalls(f.ops) && U.FollowsArity(f.ops, arity) && AllFit(f, cuts, |cuts|)
    ensures U.OneCallEach(Outlined(f, cuts, |cuts|).main.ops, 0, |cuts|)
    ensures WellFormed(U.Undone(Outlined(f, cuts, |cuts|)).main)
    ensures Renamed(f, U.Undone(Outlined(f, cuts, |cuts|)).main, org)
  {
    hide Ordered, FromShared, EndsInTerminator, Fits, Same, Undoable, U.FollowsArity, U.FoundCalls, U.Ready, U.InlinedAll, U.IsCalled, Dedup.Deduplicated, Renamed, Outlined;
    var n := |cuts|;
    if n == 0 {
      NothingOutlined(f, cuts);
      RenamedItself(f);
      return map[];
    }
    var p := Outlined(f, cuts, n);
    OutlinedIntact(f, cuts, n);
    SameOutlined(f, cuts, n);
    OutlinedIsUndoable(f, cuts, n, arity);
    UndoableHasCalls(p, arity);
    var funcToCall := U.TableOf(p);
    org := SameInlinedAll(f, p, funcToCall, arity, n);
    U.ReadyAt(p, funcToCall, arity, n);
    var g := U.InlinedAll(p, n);
    U.ReadyFacts(g, p.consts, funcToCall, n, arity);
    DeduplicatedIsRenamed(f, Program(g, p.consts), org);
    Dedup.DeduplicatedWellFormed(g);
  }

  // Hoisting, undoing and hoisting again finds the same hoisted ops, the same groups and the same
  // parameters, whatever order either run takes the subgraphs in.
  lemma HoistUndoHoist(f: Func, subs: seq<Subgraph>, cuts: seq<Cut>, subs': seq<Subgraph>, arity: (string, Attributes) -> nat) returns (org: map<nat, nat>)
    requires WellFormed(f) && NoCalls(f.ops) && U.FollowsArity(f.ops, arity)
    requires IsPartition(f, subs) && CutsOf(f, subs, cuts)
    requires IsPartition(U.Undone(Outlined(f, cuts, |cuts|)).main, subs')
    ensures var u := U.Undone(Outlined(f, cuts, |cuts|)).main;
      && WellFormed(u) && Renamed(f, u, org)
      && (forall x :: x in u.ops && !x.kind.Shared? ==> (x.id in Hoisted(u) <==> Origin(org, x.id) in Hoisted(f)))
      && (forall t :: t in subs' ==> exists s :: s in subs && SameGroup(f, u, org, t, s))
      && (forall s :: s in subs ==> exists t :: t in subs' && SameGroup(f, u, org, t, s))
  {
    hide WellFormed, NoCalls, Fits, U.FollowsArity, IsPartition, Outlined, Hoisted, Renamed, U.Undone, SameGroup;
    org := UndoGivesBack(f, cuts, arity);
    var u := U.Undone(Outlined(f, cuts, |cuts|)).main;
    forall x | x in u.ops && !x.kind.Shared?
      ensures x.id in Hoisted(u) <==> Origin(org, x.id) in Hoisted(f)
    {
      SameHoisted(f, u, org, x);
    }
    forall t | t in subs'
      ensures exists s :: s in subs && SameGroup(f, u, org, t, s)
    {
      var s := GroupIsOld(f, u, org, subs, subs', t);
    }
    forall s | s in subs
      ensures exists t :: t in subs' && SameGroup(f, u, org, t, s)
    {
      var t := GroupIsNew(f, u, org, subs, subs', s);
    }
  }
}
