/**
 * Two functions that are the same up to the numbers of their ops and to duplicate shared ops, and
 * why the const-eval analysis finds the same in both.
 */
module Renaming {
  import opened IR
  import opened Outlining
  import opened ConstEvalSpec
  import opened Wrappers
  import Dedup

  // What an operand refers to, whatever the numbers: an argument, a result of any shared op with
  // this name and attributes, or a result of the op that was numbered `id` in the first function.
  datatype Ref = ToArg(index: nat) | ToShared(name: string, attrs: Attributes, result: nat) | ToOp(id: nat, result: nat)

  function FindOp(ops: seq<Op>, id: nat): Option<Op> {
    if ops == [] then None else if Last(ops).id == id then Some(Last(ops)) else FindOp(Front(ops), id)
  }

  lemma {:induction false} FoundOp(args: nat, ops: seq<Op>, op: Op)
    requires Ordered(args, ops) && op in ops
    ensures FindOp(ops, op.id) == Some(op)
  {
    assert ops == Front(ops) + [Last(ops)];
    if op in Front(ops) {
      FoundOp(args, Front(ops), op);
    }
  }

  lemma {:induction false} FoundIsThere(ops: seq<Op>, id: nat)
    ensures FindOp(ops, id).Some? ==> FindOp(ops, id).value in ops && FindOp(ops, id).value.id == id
  {
    if ops != [] {
      FoundIsThere(Front(ops), id);
      assert ops == Front(ops) + [Last(ops)];
    }
  }

  // The number an op had in the first function.
  function Origin(org: map<nat, nat>, id: nat): nat {
    if id in org then org[id] else id
  }

  predicate IsSharedId(ops: seq<Op>, id: nat) {
    FindOp(ops, id).Some? && FindOp(ops, id).value.kind.Shared?
  }

  function RefOf(ops: seq<Op>, org: map<nat, nat>, v: Value): Ref {
    match v
    case Arg(i) => ToArg(i)
    case Res(o, r) =>
      if IsSharedId(ops, o) then ToShared(FindOp(ops, o).value.name, FindOp(ops, o).value.attrs, r)
      else ToOp(Origin(org, o), r)
  }

  // `x` is the op that was `q`: the same but for the numbers.
  ghost predicate Copies(x: Op, refs: seq<Ref>, q: Op, f: Func) {
    && x.kind == q.kind && x.name == q.name && x.attrs == q.attrs && x.results == q.results
    && |refs| == |x.operands| == |q.operands|
    && forall i :: 0 <= i < |refs| ==> refs[i] == RefOf(f.ops, map[], q.operands[i])
  }

  function RefsOf(ops: seq<Op>, org: map<nat, nat>, vs: seq<Value>): (r: seq<Ref>)
    ensures |r| == |vs|
  {
    seq(|vs|, (i: nat) requires i < |vs| => RefOf(ops, org, vs[i]))
  }

  // Every op that is not shared is a copy of one.
  ghost predicate CopiesOps(f: Func, u: Func, org: map<nat, nat>) {
    forall x :: x in u.ops && !x.kind.Shared? ==>
      exists q :: q in f.ops && q.id == Origin(org, x.id) && Copies(x, RefsOf(u.ops, org, x.operands), q, f)
  }

  ghost predicate OneToOne(u: Func, org: map<nat, nat>) {
    forall x, y :: x in u.ops && y in u.ops && !x.kind.Shared? && !y.kind.Shared? && Origin(org, x.id) == Origin(org, y.id) ==> x == y
  }

  ghost predicate Onto(f: Func, u: Func, org: map<nat, nat>) {
    forall q :: q in f.ops && !q.kind.Shared? ==> exists x :: x in u.ops && !x.kind.Shared? && Origin(org, x.id) == q.id
  }

  // The shared ops among `ops` have names and attributes of shared ops of the function.
  ghost predicate OldKeys(f: Func, ops: seq<Op>) {
    forall x :: x in ops && x.kind.Shared? ==> exists q :: q in f.ops && q.kind.Shared? && Dedup.SameKey(x, q)
  }

  // And none is missing.
  ghost predicate AllKeys(f: Func, ops: seq<Op>) {
    forall q :: q in f.ops && q.kind.Shared? ==> exists x :: x in ops && x.kind.Shared? && Dedup.SameKey(x, q)
  }

  // The ops that are not shared correspond one to one, and the shared ops have the same names and
  // attributes.
  ghost predicate Renamed(f: Func, u: Func, org: map<nat, nat>) {
    && u.args == f.args && u.constArgs == f.constArgs
    && CopiesOps(f, u, org) && OneToOne(u, org) && Onto(f, u, org)
    && OldKeys(f, u.ops) && AllKeys(f, u.ops)
  }

  // A function is itself, renumbered by nothing.
  lemma RenamedItself(f: Func)
    requires WellFormed(f)
    ensures Renamed(f, f, map[])
  {
    hide FromShared, EndsInTerminator, FindOp, RefOf;
    forall x | x in f.ops && !x.kind.Shared?
      ensures exists q :: q in f.ops && q.id == Origin(map[], x.id) && Copies(x, RefsOf(f.ops, map[], x.operands), q, f)
    {
      assert Copies(x, RefsOf(f.ops, map[], x.operands), x, f);
    }
    forall x, y | x in f.ops && y in f.ops && Origin(map[], x.id) == Origin(map[], y.id)
      ensures x == y
    {
      UniqueOp(f.args, f.ops, x, y);
    }
  }

  // Everything below relates two well-formed functions.
  ghost predicate Setting(f: Func, u: Func, org: map<nat, nat>) {
    WellFormed(f) && WellFormed(u) && Renamed(f, u, org)
  }

  // The op of the first function an op of the second was.
  lemma Source(f: Func, u: Func, org: map<nat, nat>, x: Op) returns (q: Op)
    requires Setting(f, u, org) && x in u.ops && !x.kind.Shared?
    ensures q in f.ops && q.id == Origin(org, x.id) && !q.kind.Shared? && Copies(x, RefsOf(u.ops, org, x.operands), q, f)
  {
    hide WellFormed, Copies;
    q :| q in f.ops && q.id == Origin(org, x.id) && Copies(x, RefsOf(u.ops, org, x.operands), q, f);
    CopiesKind(x, RefsOf(u.ops, org, x.operands), q, f);
  }

  lemma CopiesKind(x: Op, refs: seq<Ref>, q: Op, f: Func)
    requires Copies(x, refs, q, f)
    ensures x.kind == q.kind
  {}

  lemma Target(f: Func, u: Func, org: map<nat, nat>, q: Op) returns (x: Op)
    requires Setting(f, u, org) && q in f.ops && !q.kind.Shared?
    ensures x in u.ops && !x.kind.Shared? && Origin(org, x.id) == q.id && Copies(x, RefsOf(u.ops, org, x.operands), q, f)
  {
    hide Ordered, EndsInTerminator, FromShared, RefsOf;
    x :| x in u.ops && !x.kind.Shared? && Origin(org, x.id) == q.id;
    var s := Source(f, u, org, x);
    UniqueOp(f.args, f.ops, s, q);
  }

  // An operand and what it was refer to the same.
  lemma SameRef(f: Func, u: Func, org: map<nat, nat>, x: Op, q: Op, i: nat)
    requires Copies(x, RefsOf(u.ops, org, x.operands), q, f) && i < |x.operands|
    ensures RefOf(u.ops, org, x.operands[i]) == RefOf(f.ops, map[], q.operands[i])
  {
    hide RefOf;
    assert RefsOf(u.ops, org, x.operands)[i] == RefOf(u.ops, org, x.operands[i]);
  }

  /* Constancy */

  // What it takes for a reference to be constant.
  ghost predicate ConstRef(f: Func, s: set<nat>, ref: Ref) {
    match ref
    case ToArg(i) => i in f.constArgs
    case ToShared(_, _, _) => true
    case ToOp(id, _) => FindOp(f.ops, id).Some? && (FindOp(f.ops, id).value.kind.Creation? || id in s)
  }

  lemma ConstByDefiner(f: Func, s: set<nat>, v: Value, d: Op)
    requires Ordered(f.args, f.ops) && d in f.ops && Defines(d, v)
    ensures IsConst(f, s, v) <==> d.kind.Shared? || d.kind.Creation? || d.id in s
  {
    hide Ordered;
    forall op | op in f.ops && Defines(op, v)
      ensures op == d
    {
      UniqueOp(f.args, f.ops, op, d);
    }
  }

  lemma ConstByRef(f: Func, s: set<nat>, v: Value)
    requires Ordered(f.args, f.ops) && Defined(f.args, f.ops, v)
    requires forall op :: op in f.ops && op.id in s ==> !op.kind.Shared?
    ensures IsConst(f, s, v) <==> ConstRef(f, s, RefOf(f.ops, map[], v))
  {
    hide Ordered, FindOp;
    if v.Res? {
      var d :| d in f.ops && Defines(d, v);
      FoundOp(f.args, f.ops, d);
      ConstByDefiner(f, s, v, d);
    }
  }

  // The second function's constancy, through the numbers of the first.
  lemma ConstByOrigin(f: Func, u: Func, org: map<nat, nat>, s: set<nat>, t: set<nat>, v: Value)
    requires Setting(f, u, org) && Defined(u.args, u.ops, v)
    requires forall x :: x in u.ops && !x.kind.Shared? ==> (x.id in t <==> Origin(org, x.id) in s)
    requires forall x :: x in u.ops && x.kind.Shared? ==> x.id !in t
    ensures IsConst(u, t, v) <==> ConstRef(f, s, RefOf(u.ops, org, v))
  {
    hide EndsInTerminator, FromShared, FindOp, CopiesOps, OneToOne, Onto, OldKeys, AllKeys, Ordered, RefsOf;
    if v.Res? {
      var d :| d in u.ops && Defines(d, v);
      FoundOp(u.args, u.ops, d);
      ConstByDefiner(u, t, v, d);
      hide IsConst, Origin;
      if !d.kind.Shared? {
        var q := Source(f, u, org, d);
        FoundOp(f.args, f.ops, q);
      }
    }
  }

  lemma AllConstSame(f: Func, u: Func, org: map<nat, nat>, s: set<nat>, t: set<nat>, x: Op, q: Op)
    requires Setting(f, u, org) && x in u.ops && q in f.ops && Copies(x, RefsOf(u.ops, org, x.operands), q, f)
    requires forall y :: y in u.ops && !y.kind.Shared? ==> (y.id in t <==> Origin(org, y.id) in s)
    requires forall y :: y in u.ops && y.kind.Shared? ==> y.id !in t
    requires forall op :: op in f.ops && op.id in s ==> !op.kind.Shared?
    ensures AllConst(u, t, x) <==> AllConst(f, s, q)
  {
    hide Ordered, EndsInTerminator, FromShared, Renamed, RefOf, IsConst;
    forall i | 0 <= i < |x.operands|
      ensures IsConst(u, t, x.operands[i]) <==> IsConst(f, s, q.operands[i])
    {
      OperandDefined(u.args, u.ops, x, x.operands[i]);
      OperandDefined(f.args, f.ops, q, q.operands[i]);
      SameRef(f, u, org, x, q, i);
      ConstByRef(f, s, q.operands[i]);
      ConstByOrigin(f, u, org, s, t, x.operands[i]);
    }
  }

  lemma HoistedIsOrdinary(f: Func, op: Op)
    requires Ordered(f.args, f.ops) && op in f.ops && op.id in Hoisted(f)
    ensures op.kind.Ordinary?
  {
    hide Ordered, Hoisted, AllConst;
    HoistedIsFixpoint(f, op);
  }

  // The hoisted ops are the same.
  lemma SameHoisted(f: Func, u: Func, org: map<nat, nat>, x: Op)
    requires Setting(f, u, org) && x in u.ops && !x.kind.Shared?
    ensures x.id in Hoisted(u) <==> Origin(org, x.id) in Hoisted(f)
  {
    hide Ordered, EndsInTerminator, FromShared, Renamed, AllConst, Hoisted;
    // What is hoisted in u was hoisted in f, and the other way round, by minimality of each.
    HoistedForward(f, u, org);
    HoistedBackward(f, u, org);
  }

  ghost function Pulled(u: Func, org: map<nat, nat>, s: set<nat>): set<nat> {
    set x | x in u.ops && !x.kind.Shared? && Origin(org, x.id) in s :: x.id
  }

  lemma PulledMember(u: Func, org: map<nat, nat>, s: set<nat>, x: Op)
    requires Ordered(u.args, u.ops) && x in u.ops
    ensures x.id in Pulled(u, org, s) <==> !x.kind.Shared? && Origin(org, x.id) in s
  {
    hide Ordered;
    if x.id in Pulled(u, org, s) {
      var y :| y in u.ops && !y.kind.Shared? && Origin(org, y.id) in s && y.id == x.id;
      UniqueOp(u.args, u.ops, x, y);
    }
  }

  lemma HoistedForward(f: Func, u: Func, org: map<nat, nat>)
    requires Setting(f, u, org)
    ensures Hoisted(u) <= Pulled(u, org, Hoisted(f))
  {
    hide Ordered, EndsInTerminator, FromShared, Renamed, AllConst, Pulled;
    var t := Pulled(u, org, Hoisted(f));
    forall y | y in u.ops
      ensures y.id in t <==> !y.kind.Shared? && Origin(org, y.id) in Hoisted(f)
    {
      PulledMember(u, org, Hoisted(f), y);
    }
    forall op | op in f.ops && op.id in Hoisted(f)
      ensures !op.kind.Shared?
    {
      HoistedIsOrdinary(f, op);
    }
    forall x | x in u.ops && x.kind.Ordinary? && AllConst(u, t, x)
      ensures x.id in t
    {
      var q := Source(f, u, org, x);
      AllConstSame(f, u, org, Hoisted(f), t, x, q);
      HoistedIsFixpoint(f, q);
      assert q.kind == x.kind;
    }
    HoistedIsLeast(u, |u.ops|, t);
  }

  ghost function Pushed(u: Func, org: map<nat, nat>, t: set<nat>): set<nat> {
    set x | x in u.ops && !x.kind.Shared? && x.id in t :: Origin(org, x.id)
  }

  lemma HoistedBackward(f: Func, u: Func, org: map<nat, nat>)
    requires Setting(f, u, org)
    ensures Hoisted(f) <= Pushed(u, org, Hoisted(u))
    ensures forall x :: x in u.ops && !x.kind.Shared? && Origin(org, x.id) in Hoisted(f) ==> x.id in Hoisted(u)
  {
    hide Ordered, EndsInTerminator, FromShared, AllConst;
    var s := Pushed(u, org, Hoisted(u));
    forall x | x in u.ops && !x.kind.Shared?
      ensures x.id in Hoisted(u) <==> Origin(org, x.id) in s
    {
      if Origin(org, x.id) in s {
        var y :| y in u.ops && !y.kind.Shared? && y.id in Hoisted(u) && Origin(org, y.id) == Origin(org, x.id);
      }
    }
    PushedNotShared(f, u, org, s);
    hide Renamed, Pushed;
    forall x | x in u.ops && x.kind.Shared?
      ensures x.id !in Hoisted(u)
    {
      if x.id in Hoisted(u) {
        HoistedIsOrdinary(u, x);
      }
    }
    forall q | q in f.ops && q.kind.Ordinary? && AllConst(f, s, q)
      ensures q.id in s
    {
      var x := Target(f, u, org, q);
      AllConstSame(f, u, org, s, Hoisted(u), x, q);
      HoistedIsFixpoint(u, x);
    }
    HoistedIsLeast(f, |f.ops|, s);
  }

  lemma PushedNotShared(f: Func, u: Func, org: map<nat, nat>, s: set<nat>)
    requires Setting(f, u, org) && s == Pushed(u, org, Hoisted(u))
    ensures forall op :: op in f.ops && op.id in s ==> !op.kind.Shared?
  {
    hide Ordered, EndsInTerminator, FromShared, Hoisted, Renamed;
    forall op | op in f.ops && op.id in s
      ensures !op.kind.Shared?
    {
      var x :| x in u.ops && !x.kind.Shared? && x.id in Hoisted(u) && Origin(org, x.id) == op.id;
      var q := Source(f, u, org, x);
      UniqueOp(f.args, f.ops, q, op);
    }
  }

  /* Links */

  // The op an id of the second function names, if it is not shared.
  ghost predicate Plain(u: Func, id: nat, x: Op) {
    x in u.ops && x.id == id && !x.kind.Shared?
  }

  lemma ReadsForward(f: Func, u: Func, org: map<nat, nat>, y: Op, x: Op, qy: Op, qx: Op)
    requires Setting(f, u, org) && x in u.ops && y in u.ops && !x.kind.Shared? && qx in f.ops && qy in f.ops
    requires Copies(y, RefsOf(u.ops, org, y.operands), qy, f) && Copies(x, RefsOf(u.ops, org, x.operands), qx, f)
    requires qx.id == Origin(org, x.id) && !qx.kind.Shared? && Reads(y, x)
    ensures Reads(qy, qx)
  {
    hide Ordered, EndsInTerminator, FromShared, Renamed, FindOp;
    var v :| v in y.operands && Defines(x, v);
    var i :| 0 <= i < |y.operands| && y.operands[i] == v;
    SameRef(f, u, org, y, qy, i);
    FoundOp(u.args, u.ops, x);
    assert RefOf(u.ops, org, v) == ToOp(qx.id, v.result);
    var w := qy.operands[i];
    assert w in qy.operands && Defines(qx, w);
  }

  lemma ReadsBackward(f: Func, u: Func, org: map<nat, nat>, y: Op, x: Op, qy: Op, qx: Op)
    requires Setting(f, u, org) && x in u.ops && y in u.ops && !x.kind.Shared? && qx in f.ops && qy in f.ops
    requires Copies(y, RefsOf(u.ops, org, y.operands), qy, f) && Copies(x, RefsOf(u.ops, org, x.operands), qx, f)
    requires qx.id == Origin(org, x.id) && !qx.kind.Shared? && Reads(qy, qx)
    ensures Reads(y, x)
  {
    hide Ordered, EndsInTerminator, FromShared, FindOp, Renamed;
    var w :| w in qy.operands && Defines(qx, w);
    var i :| 0 <= i < |qy.operands| && qy.operands[i] == w;
    SameRef(f, u, org, y, qy, i);
    FoundOp(f.args, f.ops, qx);
    var v := y.operands[i];
    assert RefOf(u.ops, org, v) == ToOp(qx.id, w.result);
    OperandDefined(u.args, u.ops, y, v);
    var d :| d in u.ops && Defines(d, v);
    FoundOp(u.args, u.ops, d);
    OneOrigin(f, u, org, d, x);
    assert v in y.operands && Defines(x, v);
  }

  lemma OneOrigin(f: Func, u: Func, org: map<nat, nat>, x: Op, y: Op)
    requires Setting(f, u, org) && x in u.ops && y in u.ops && !x.kind.Shared? && !y.kind.Shared?
    requires Origin(org, x.id) == Origin(org, y.id)
    ensures x == y
  {}

  // Creation ops and hoisted ops: the ends of a link.
  lemma EndsArePlain(f: Func, a: nat, b: nat) returns (x: Op, y: Op)
    requires Ordered(f.args, f.ops) && Linked(f, Hoisted(f), a, b)
    ensures Plain(f, a, x) && Plain(f, b, y) && Reads(y, x) && b in Hoisted(f) && (x.kind.Creation? || a in Hoisted(f))
  {
    hide Ordered, Hoisted, Reads;
    x, y :| x in f.ops && y in f.ops && x.id == a && y.id == b && b in Hoisted(f) && Reads(y, x) && (x.kind.Creation? || a in Hoisted(f));
    HoistedIsOrdinary(f, y);
    if a in Hoisted(f) {
      HoistedIsOrdinary(f, x);
    }
  }

  lemma LinkForward(f: Func, u: Func, org: map<nat, nat>, a: nat, b: nat)
    requires Setting(f, u, org) && Linked(u, Hoisted(u), a, b)
    ensures Linked(f, Hoisted(f), Origin(org, a), Origin(org, b))
  {
    hide Ordered, EndsInTerminator, FromShared, Renamed, Hoisted, Reads, RefsOf;
    var x, y := EndsArePlain(u, a, b);
    var qx := Source(f, u, org, x);
    var qy := Source(f, u, org, y);
    ReadsForward(f, u, org, y, x, qy, qx);
    SameHoisted(f, u, org, x);
    SameHoisted(f, u, org, y);
  }

  lemma LinkBackward(f: Func, u: Func, org: map<nat, nat>, a: nat, b: nat) returns (c: nat, d: nat)
    requires Setting(f, u, org) && Linked(f, Hoisted(f), a, b)
    ensures Origin(org, c) == a && Origin(org, d) == b && Linked(u, Hoisted(u), c, d)
    ensures exists x :: Plain(u, c, x)
    ensures exists y :: Plain(u, d, y)
  {
    hide Ordered, EndsInTerminator, FromShared, Renamed, Hoisted, Reads, RefsOf;
    var qx, qy := EndsArePlain(f, a, b);
    var x := Target(f, u, org, qx);
    var y := Target(f, u, org, qy);
    c, d := x.id, y.id;
    ReadsBackward(f, u, org, y, x, qy, qx);
    SameHoisted(f, u, org, x);
    SameHoisted(f, u, org, y);
    assert Plain(u, c, x) && Plain(u, d, y);
  }

  lemma {:induction false} WalkForward(f: Func, u: Func, org: map<nat, nat>, p: seq<nat>)
    requires Setting(f, u, org) && Walk(u, p)
    ensures Connected(f, Origin(org, p[0]), Origin(org, Last(p)))
  {
    hide Setting, Linked, Hoisted, Connected;
    if |p| == 1 {
      ConnectedItself(f, Origin(org, p[0]));
    } else {
      assert Adjacent(u, p[0], p[0 + 1]);
      if Linked(u, Hoisted(u), p[0], p[1]) {
        LinkForward(f, u, org, p[0], p[1]);
      } else {
        LinkForward(f, u, org, p[1], p[0]);
      }
      ConnectedStep(f, Origin(org, p[0]), Origin(org, p[1]));
      WalkForward(f, u, org, p[1..]);
      ConnectedTrans(f, Origin(org, p[0]), Origin(org, p[1]), Origin(org, Last(p)));
    }
  }

  // From an op of the second function, a walk in the first leads to the op it leads to.
  lemma {:induction false} WalkBackward(f: Func, u: Func, org: map<nat, nat>, p: seq<nat>, x: Op, y: Op)
    requires Setting(f, u, org) && Walk(f, p) && Plain(u, x.id, x) && Plain(u, y.id, y)
    requires p[0] == Origin(org, x.id) && Last(p) == Origin(org, y.id)
    ensures Connected(u, x.id, y.id)
    decreases |p|
  {
    hide WellFormed, Linked, Hoisted, Connected, Renamed;
    if |p| == 1 {
      OneOrigin(f, u, org, x, y);
      ConnectedItself(u, x.id);
    } else {
      assert Adjacent(f, p[0], p[0 + 1]);
      var z := StepBackward(f, u, org, x, p[1]);
      ConnectedStep(u, x.id, z.id);
      WalkBackward(f, u, org, p[1..], z, y);
      ConnectedTrans(u, x.id, z.id, y.id);
    }
  }

  lemma StepBackward(f: Func, u: Func, org: map<nat, nat>, x: Op, b: nat) returns (z: Op)
    requires Setting(f, u, org) && Plain(u, x.id, x) && Adjacent(f, Origin(org, x.id), b)
    ensures Plain(u, z.id, z) && Origin(org, z.id) == b && Adjacent(u, x.id, z.id)
  {
    hide WellFormed, Linked, Hoisted, Renamed;
    var a := Origin(org, x.id);
    var c, d;
    if Linked(f, Hoisted(f), a, b) {
      c, d := LinkBackward(f, u, org, a, b);
    } else {
      d, c := LinkBackward(f, u, org, b, a);
    }
    var w :| Plain(u, c, w);
    z :| Plain(u, d, z);
    OneOrigin(f, u, org, w, x);
  }

  // Two ops are connected in one function iff they are in the other.
  lemma SameConnected(f: Func, u: Func, org: map<nat, nat>, x: Op, y: Op)
    requires Setting(f, u, org) && Plain(u, x.id, x) && Plain(u, y.id, y)
    ensures Connected(u, x.id, y.id) <==> Connected(f, Origin(org, x.id), Origin(org, y.id))
  {
    hide WellFormed, Adjacent, Renamed;
    if Connected(u, x.id, y.id) {
      var p: seq<nat> :| Walk(u, p) && p[0] == x.id && Last(p) == y.id;
      WalkForward(f, u, org, p);
    }
    if Connected(f, Origin(org, x.id), Origin(org, y.id)) {
      var p: seq<nat> :| Walk(f, p) && p[0] == Origin(org, x.id) && Last(p) == Origin(org, y.id);
      WalkBackward(f, u, org, p, x, y);
    }
  }

  /* Groups */

  lemma MovesIsPlain(f: Func, op: Op)
    requires Ordered(f.args, f.ops) && op in f.ops && Moves(f, Hoisted(f), op)
    ensures !op.kind.Shared?
  {
    hide Ordered, Hoisted, Reads;
    if op.id in Hoisted(f) {
      HoistedIsOrdinary(f, op);
    }
  }

  lemma SameMoves(f: Func, u: Func, org: map<nat, nat>, x: Op, q: Op)
    requires Setting(f, u, org) && Plain(u, x.id, x) && q in f.ops && q.id == Origin(org, x.id) && !q.kind.Shared?
    requires Copies(x, RefsOf(u.ops, org, x.operands), q, f)
    ensures Moves(u, Hoisted(u), x) <==> Moves(f, Hoisted(f), q)
  {
    hide Ordered, EndsInTerminator, FromShared, Renamed, Hoisted, Reads, RefsOf;
    SameHoisted(f, u, org, x);
    if y :| y in u.ops && y.id in Hoisted(u) && Reads(y, x) {
      HoistedIsOrdinary(u, y);
      var qy := Source(f, u, org, y);
      ReadsForward(f, u, org, y, x, qy, q);
      SameHoisted(f, u, org, y);
    }
    if qy :| qy in f.ops && qy.id in Hoisted(f) && Reads(qy, q) {
      HoistedIsOrdinary(f, qy);
      var y := Target(f, u, org, qy);
      ReadsBackward(f, u, org, y, x, qy, q);
      SameHoisted(f, u, org, y);
    }
  }

  // The subgraph of the second function is the one of the first, renamed, with the same parameters.
  ghost predicate SameGroup(f: Func, u: Func, org: map<nat, nat>, t: Subgraph, s: Subgraph) {
    && (forall x :: x in t.ops ==> Origin(org, x.id) in GroupOf(s.ops))
    && (forall q :: q in s.ops ==> exists x :: x in t.ops && Origin(org, x.id) == q.id)
    && t.inputParameters == s.inputParameters
  }

  lemma PartInBody(f: Func, subgraphs: seq<Subgraph>, s: Subgraph, x: Op)
    requires WellFormed(f) && IsPartition(f, subgraphs) && s in subgraphs && x in s.ops
    ensures x in f.ops && Moves(f, Hoisted(f), x) && !x.kind.Shared?
  {
    hide EndsInTerminator, FromShared, Connected, Hoisted, Moves, Ordered, Filter;
    FilterMembers(InGroup(GroupOf(s.ops)), f.ops, x);
    ConnectedItself(f, x.id);
    MovesIsPlain(f, x);
  }

  lemma ArgForward(f: Func, u: Func, org: map<nat, nat>, x: Op, q: Op, p: nat)
    requires Copies(x, RefsOf(u.ops, org, x.operands), q, f)
    ensures Arg(p) in x.operands <==> Arg(p) in q.operands
  {
    forall i | 0 <= i < |x.operands|
      ensures x.operands[i] == Arg(p) <==> q.operands[i] == Arg(p)
    {
      SameRef(f, u, org, x, q, i);
    }
    if Arg(p) in x.operands {
      var i :| 0 <= i < |x.operands| && x.operands[i] == Arg(p);
      assert q.operands[i] in q.operands;
    }
    if Arg(p) in q.operands {
      var i :| 0 <= i < |q.operands| && q.operands[i] == Arg(p);
      assert x.operands[i] in x.operands;
    }
  }

  ghost predicate IsCopy(f: Func, u: Func, org: map<nat, nat>, x: Op, q: Op) {
    x in u.ops && q.id == Origin(org, x.id) && Copies(x, RefsOf(u.ops, org, x.operands), q, f)
  }

  // Each op of the second subgraph was an op of the first.
  ghost predicate MembersOf(f: Func, u: Func, org: map<nat, nat>, t: Subgraph, s: Subgraph) {
    forall x :: x in t.ops ==> exists q :: q in s.ops && IsCopy(f, u, org, x, q)
  }

  // Each op of the first subgraph is an op of the second.
  ghost predicate Covers(f: Func, u: Func, org: map<nat, nat>, t: Subgraph, s: Subgraph) {
    forall q :: q in s.ops ==> exists x :: x in t.ops && IsCopy(f, u, org, x, q)
  }

  lemma MembersRead(f: Func, u: Func, org: map<nat, nat>, t: Subgraph, s: Subgraph, p: nat)
    requires MembersOf(f, u, org, t, s) && ReadsArg(t.ops, p)
    ensures ReadsArg(s.ops, p)
  {
    hide Copies, RefsOf, Origin;
    var x :| x in t.ops && Arg(p) in x.operands;
    var q :| q in s.ops && IsCopy(f, u, org, x, q);
    ArgForward(f, u, org, x, q, p);
  }

  lemma CoveredRead(f: Func, u: Func, org: map<nat, nat>, t: Subgraph, s: Subgraph, p: nat)
    requires Covers(f, u, org, t, s) && ReadsArg(s.ops, p)
    ensures ReadsArg(t.ops, p)
  {
    hide Copies, RefsOf, Origin;
    var q :| q in s.ops && Arg(p) in q.operands;
    var x :| x in t.ops && IsCopy(f, u, org, x, q);
    ArgForward(f, u, org, x, q, p);
  }

  lemma MembersGiveIds(f: Func, u: Func, org: map<nat, nat>, t: Subgraph, s: Subgraph)
    requires MembersOf(f, u, org, t, s)
    ensures forall x :: x in t.ops ==> Origin(org, x.id) in GroupOf(s.ops)
  {
    hide Copies, RefsOf, Origin;
  }

  lemma CoversGivesIds(f: Func, u: Func, org: map<nat, nat>, t: Subgraph, s: Subgraph)
    requires Covers(f, u, org, t, s)
    ensures forall q :: q in s.ops ==> exists x :: x in t.ops && Origin(org, x.id) == q.id
  {
    hide Copies, RefsOf, Origin;
  }

  lemma MembersGiveGroup(f: Func, u: Func, org: map<nat, nat>, t: Subgraph, s: Subgraph)
    requires MembersOf(f, u, org, t, s) && Covers(f, u, org, t, s)
    requires forall p: nat :: p in t.inputParameters <==> ReadsArg(t.ops, p)
    requires forall p: nat :: p in s.inputParameters <==> ReadsArg(s.ops, p)
    ensures SameGroup(f, u, org, t, s)
  {
    hide Origin, ReadsArg, MembersOf, Covers;
    forall p: nat
      ensures p in t.inputParameters <==> p in s.inputParameters
    {
      if ReadsArg(t.ops, p) {
        MembersRead(f, u, org, t, s, p);
      }
      if ReadsArg(s.ops, p) {
        CoveredRead(f, u, org, t, s, p);
      }
    }
    MembersGiveIds(f, u, org, t, s);
    CoversGivesIds(f, u, org, t, s);
  }

  lemma SameSubgraph(f: Func, subgraphs: seq<Subgraph>, s: Subgraph, x: Op, y: Op)
    requires IsPartition(f, subgraphs) && s in subgraphs && x in s.ops && y in f.ops
    ensures y in s.ops <==> Moves(f, Hoisted(f), y) && Connected(f, x.id, y.id)
  {
    hide Connected, Hoisted, Moves, Filter, ReadsArg;
  }

  lemma MemberForward(f: Func, u: Func, org: map<nat, nat>, subs: seq<Subgraph>, subs': seq<Subgraph>, s: Subgraph, t: Subgraph, q0: Op, x0: Op, x: Op) returns (q: Op)
    requires Setting(f, u, org) && IsPartition(f, subs) && IsPartition(u, subs') && s in subs && t in subs'
    requires q0 in s.ops && x0 in t.ops && q0.id == Origin(org, x0.id) && x in t.ops
    ensures q in s.ops && IsCopy(f, u, org, x, q)
  {
    hide Ordered, EndsInTerminator, FromShared, Connected, Hoisted, Moves, IsPartition, Renamed, Copies, RefsOf;
    PartInBody(f, subs, s, q0);
    PartInBody(u, subs', t, x0);
    PartInBody(u, subs', t, x);
    SameSubgraph(u, subs', t, x0, x);
    q := Source(f, u, org, x);
    SameMoves(f, u, org, x, q);
    SameConnected(f, u, org, x0, x);
    SameSubgraph(f, subs, s, q0, q);
  }

  lemma MemberBackward(f: Func, u: Func, org: map<nat, nat>, subs: seq<Subgraph>, subs': seq<Subgraph>, s: Subgraph, t: Subgraph, q0: Op, x0: Op, q: Op) returns (x: Op)
    requires Setting(f, u, org) && IsPartition(f, subs) && IsPartition(u, subs') && s in subs && t in subs'
    requires q0 in s.ops && x0 in t.ops && q0.id == Origin(org, x0.id) && q in s.ops
    ensures x in t.ops && IsCopy(f, u, org, x, q)
  {
    hide Ordered, EndsInTerminator, FromShared, Connected, Hoisted, Moves, IsPartition, Renamed, Copies, RefsOf;
    PartInBody(f, subs, s, q0);
    PartInBody(u, subs', t, x0);
    PartInBody(f, subs, s, q);
    SameSubgraph(f, subs, s, q0, q);
    x := Target(f, u, org, q);
    SameMoves(f, u, org, x, q);
    SameConnected(f, u, org, x0, x);
    SameSubgraph(u, subs', t, x0, x);
  }

  // Subgraphs that share one op share all.
  lemma MatchingSubgraphs(f: Func, u: Func, org: map<nat, nat>, subs: seq<Subgraph>, subs': seq<Subgraph>, s: Subgraph, t: Subgraph, q0: Op, x0: Op)
    requires Setting(f, u, org) && IsPartition(f, subs) && IsPartition(u, subs') && s in subs && t in subs'
    requires q0 in s.ops && x0 in t.ops && q0.id == Origin(org, x0.id)
    ensures MembersOf(f, u, org, t, s) && Covers(f, u, org, t, s)
  {
    hide Setting, IsPartition, IsCopy;
    forall x | x in t.ops
      ensures exists q :: q in s.ops && IsCopy(f, u, org, x, q)
    {
      var q := MemberForward(f, u, org, subs, subs', s, t, q0, x0, x);
    }
    forall q | q in s.ops
      ensures exists x :: x in t.ops && IsCopy(f, u, org, x, q)
    {
      var x := MemberBackward(f, u, org, subs, subs', s, t, q0, x0, q);
    }
  }

  lemma PartHasParams(f: Func, subgraphs: seq<Subgraph>, s: Subgraph)
    requires IsPartition(f, subgraphs) && s in subgraphs
    ensures s.ops != [] && forall p: nat :: p in s.inputParameters <==> ReadsArg(s.ops, p)
  {
    hide Connected, Hoisted, Moves, Filter, ReadsArg;
  }

  // Whatever the analysis finds in the second function it finds in the first.
  lemma GroupIsOld(f: Func, u: Func, org: map<nat, nat>, subs: seq<Subgraph>, subs': seq<Subgraph>, t: Subgraph) returns (s: Subgraph)
    requires Setting(f, u, org) && IsPartition(f, subs) && IsPartition(u, subs') && t in subs'
    ensures s in subs && SameGroup(f, u, org, t, s)
  {
    hide Ordered, EndsInTerminator, FromShared, Connected, Hoisted, Moves, Filter, Renamed, RefsOf, MembersOf, Covers, ReadsArg;
    PartHasParams(u, subs', t);
    var x0 := t.ops[0];
    PartInBody(u, subs', t, x0);
    var q0 := Source(f, u, org, x0);
    SameMoves(f, u, org, x0, q0);
    s :| s in subs && q0 in s.ops;
    PartHasParams(f, subs, s);
    MatchingSubgraphs(f, u, org, subs, subs', s, t, q0, x0);
    MembersGiveGroup(f, u, org, t, s);
  }

  // And whatever it finds in the first it finds in the second.
  lemma GroupIsNew(f: Func, u: Func, org: map<nat, nat>, subs: seq<Subgraph>, subs': seq<Subgraph>, s: Subgraph) returns (t: Subgraph)
    requires Setting(f, u, org) && IsPartition(f, subs) && IsPartition(u, subs') && s in subs
    ensures t in subs' && SameGroup(f, u, org, t, s)
  {
    hide Ordered, EndsInTerminator, FromShared, Connected, Hoisted, Moves, Filter, Renamed, RefsOf, MembersOf, Covers, ReadsArg;
    PartHasParams(f, subs, s);
    var q0 := s.ops[0];
    PartInBody(f, subs, s, q0);
    var x0 := Target(f, u, org, q0);
    SameMoves(f, u, org, x0, q0);
    t :| t in subs' && x0 in t.ops;
    PartHasParams(u, subs', t);
    MatchingSubgraphs(f, u, org, subs, subs', s, t, q0, x0);
    MembersGiveGroup(f, u, org, t, s);
  }
}
