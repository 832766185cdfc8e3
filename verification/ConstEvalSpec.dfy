/**
 * What const-eval hoisting is about: the ops whose operands are all constant, the links between
 * them, and the groups those links form.
 */
module ConstEvalSpec {
  import opened IR
  import opened Outlining

  // A constant argument, or a result of a shared op, a creation op or an op of `hoisted`.
  predicate IsConst(f: Func, hoisted: set<nat>, v: Value) {
    match v
    case Arg(i) => i in f.constArgs
    case Res(_, _) => exists op :: op in f.ops && Defines(op, v) && (op.kind.Shared? || op.kind.Creation? || op.id in hoisted)
  }

  predicate AllConst(f: Func, hoisted: set<nat>, op: Op) {
    forall v :: v in op.operands ==> IsConst(f, hoisted, v)
  }

  // The ordinary ops hoisted among the first k, found in one pass.
  function HoistedAmong(f: Func, k: nat): set<nat>
    requires k <= |f.ops|
  {
    if k == 0 then {} else
      var h := HoistedAmong(f, k - 1);
      var op := f.ops[k - 1];
      if op.kind.Ordinary? && AllConst(f, h, op) then h + {op.id} else h
  }

  function Hoisted(f: Func): set<nat> {
    HoistedAmong(f, |f.ops|)
  }

  lemma {:induction false} HoistedMembers(f: Func, k: nat, id: nat)
    requires k <= |f.ops|
    ensures id in HoistedAmong(f, k) ==> exists op :: op in f.ops[..k] && op.id == id && op.kind.Ordinary?
  {
    if k > 0 {
      HoistedMembers(f, k - 1, id);
      assert f.ops[..k] == f.ops[..k - 1] + [f.ops[k - 1]];
      assert f.ops[k - 1] in f.ops[..k];
    }
  }

  lemma {:induction false} HoistedGrows(f: Func, k: nat, n: nat)
    requires k <= n <= |f.ops|
    ensures HoistedAmong(f, k) <= HoistedAmong(f, n)
  {
    if k < n {
      HoistedGrows(f, k, n - 1);
    }
  }

  lemma {:induction false} HoistedLater(f: Func, k: nat, n: nat, id: nat)
    requires Ordered(f.args, f.ops) && k <= n <= |f.ops|
    requires id in HoistedAmong(f, n) && HasId(f.ops[..k], id)
    ensures id in HoistedAmong(f, k)
  {
    hide Ordered, AllConst;
    if k < n {
      if id !in HoistedAmong(f, n - 1) {
        var op := f.ops[n - 1];
        var q :| q in f.ops[..k] && q.id == id;
        OrderedPrefix(f.args, f.ops, n);
        LastIsNew(f, n, q);
      } else {
        HoistedLater(f, k, n - 1, id);
      }
    }
  }

  lemma LastIsNew(f: Func, n: nat, q: Op)
    requires 0 < n <= |f.ops| && Ordered(f.args, f.ops[..n]) && q in f.ops[..n - 1]
    ensures q.id != f.ops[n - 1].id
  {
    assert Front(f.ops[..n]) == f.ops[..n - 1] && Last(f.ops[..n]) == f.ops[n - 1];
  }

  // An operand's constancy is settled when the op using it is reached.
  lemma ConstSettled(f: Func, k: nat, v: Value)
    requires Ordered(f.args, f.ops) && k <= |f.ops| && Defined(f.args, f.ops[..k], v)
    ensures IsConst(f, HoistedAmong(f, k), v) <==> IsConst(f, Hoisted(f), v)
  {
    hide Ordered, HoistedAmong;
    HoistedGrows(f, k, |f.ops|);
    if v.Res? && IsConst(f, Hoisted(f), v) {
      var op :| op in f.ops && Defines(op, v) && (op.kind.Shared? || op.kind.Creation? || op.id in Hoisted(f));
      var q :| q in f.ops[..k] && Defines(q, v);
      UniqueOp(f.args, f.ops, op, q);
      if op.id in Hoisted(f) {
        HoistedLater(f, k, |f.ops|, op.id);
      }
    }
  }

  lemma HoistedWhenReached(f: Func, k: nat)
    requires Ordered(f.args, f.ops) && k < |f.ops|
    ensures f.ops[k].id in Hoisted(f) <==> f.ops[k].kind.Ordinary? && AllConst(f, HoistedAmong(f, k), f.ops[k])
    ensures f.ops[k].id in HoistedAmong(f, k + 1) <==> f.ops[k].id in Hoisted(f)
    ensures f.ops[k].id !in HoistedAmong(f, k)
  {
    var op := f.ops[k];
    assert op in f.ops[..k + 1];
    OrderedPrefix(f.args, f.ops, k + 1);
    HoistedMembers(f, k, op.id);
    if q :| q in f.ops[..k] && q.id == op.id {
      LastIsNew(f, k + 1, q);
    }
    HoistedGrows(f, k + 1, |f.ops|);
    if op.id in Hoisted(f) {
      HoistedLater(f, k + 1, |f.ops|, op.id);
    }
  }

  // Exactly the ordinary ops all of whose operands are constant.
  lemma HoistedIsFixpoint(f: Func, op: Op)
    requires Ordered(f.args, f.ops) && op in f.ops
    ensures op.id in Hoisted(f) <==> op.kind.Ordinary? && AllConst(f, Hoisted(f), op)
  {
    hide Ordered, HoistedAmong, IsConst;
    var k :| 0 <= k < |f.ops| && f.ops[k] == op;
    HoistedWhenReached(f, k);
    OrderedPrefix(f.args, f.ops, k + 1);
    forall v | v in op.operands
      ensures IsConst(f, HoistedAmong(f, k), v) <==> IsConst(f, Hoisted(f), v)
    {
      ReadsEarlier(f, k, v);
      ConstSettled(f, k, v);
    }
  }

  // The same, operand by operand.
  lemma HoistedWhenOperandsAre(f: Func, op: Op)
    requires Ordered(f.args, f.ops) && op in f.ops
    ensures op.id in Hoisted(f) <==> op.kind.Ordinary? && forall v :: v in op.operands ==>
      || (v.Arg? && v.index in f.constArgs)
      || (v.Res? && exists d ::
            d in f.ops && d.id == v.op && v.result < d.results && (d.kind.Shared? || d.kind.Creation? || d.id in Hoisted(f)))
  {
    hide Ordered, HoistedAmong;
    HoistedIsFixpoint(f, op);
    forall v: Value
      ensures IsConst(f, Hoisted(f), v) <==>
        || (v.Arg? && v.index in f.constArgs)
        || (v.Res? && exists d ::
              d in f.ops && d.id == v.op && v.result < d.results && (d.kind.Shared? || d.kind.Creation? || d.id in Hoisted(f)))
    {
      if d :| v.Res? && d in f.ops && d.id == v.op && v.result < d.results && (d.kind.Shared? || d.kind.Creation? || d.id in Hoisted(f)) {
        assert Defines(d, v);
      }
    }
  }

  lemma ReadsEarlier(f: Func, k: nat, v: Value)
    requires k < |f.ops| && Ordered(f.args, f.ops[..k + 1]) && v in f.ops[k].operands
    ensures Defined(f.args, f.ops[..k], v)
  {
    assert Front(f.ops[..k + 1]) == f.ops[..k] && Last(f.ops[..k + 1]) == f.ops[k];
  }

  // The smallest set closed under that rule.
  lemma {:induction false} HoistedIsLeast(f: Func, k: nat, s: set<nat>)
    requires k <= |f.ops|
    requires forall op :: op in f.ops && op.kind.Ordinary? && AllConst(f, s, op) ==> op.id in s
    ensures HoistedAmong(f, k) <= s
  {
    if k > 0 {
      HoistedIsLeast(f, k - 1, s);
      var op := f.ops[k - 1];
      if op.kind.Ordinary? && AllConst(f, HoistedAmong(f, k - 1), op) {
        forall v | v in op.operands
          ensures IsConst(f, s, v)
        {
          assert IsConst(f, HoistedAmong(f, k - 1), v);
        }
        assert op in f.ops;
      }
    }
  }

  /* Groups */

  ghost predicate Reads(user: Op, op: Op) {
    exists v :: v in user.operands && Defines(op, v)
  }

  // The ops that move: the hoisted ones and the creation ops they read.
  ghost predicate Moves(f: Func, hoisted: set<nat>, op: Op) {
    op.id in hoisted || (op.kind.Creation? && exists user :: user in f.ops && user.id in hoisted && Reads(user, op))
  }

  // A hoisted op reads a result of a creation op or of another hoisted op.
  ghost predicate Linked(f: Func, hoisted: set<nat>, a: nat, b: nat) {
    exists x, y :: x in f.ops && y in f.ops && x.id == a && y.id == b && b in hoisted && Reads(y, x) && (x.kind.Creation? || a in hoisted)
  }

  ghost predicate Adjacent(f: Func, a: nat, b: nat) {
    Linked(f, Hoisted(f), a, b) || Linked(f, Hoisted(f), b, a)
  }

  ghost predicate Walk(f: Func, p: seq<nat>) {
    p != [] && forall i :: 0 <= i < |p| - 1 ==> Adjacent(f, p[i], p[i + 1])
  }

  ghost predicate Connected(f: Func, a: nat, b: nat) {
    exists p: seq<nat> :: Walk(f, p) && p[0] == a && Last(p) == b
  }

  lemma ConnectedItself(f: Func, a: nat)
    ensures Connected(f, a, a)
  {
    assert Walk(f, [a]) && [a][0] == a && Last([a]) == a;
  }

  lemma ConnectedStep(f: Func, a: nat, b: nat)
    requires Adjacent(f, a, b)
    ensures Connected(f, a, b)
  {
    hide Adjacent;
    assert Walk(f, [a, b]) && [a, b][0] == a && Last([a, b]) == b;
  }

  lemma ConnectedTrans(f: Func, a: nat, b: nat, c: nat)
    requires Connected(f, a, b) && Connected(f, b, c)
    ensures Connected(f, a, c)
  {
    hide Adjacent;
    var p: seq<nat> :| Walk(f, p) && p[0] == a && Last(p) == b;
    var q: seq<nat> :| Walk(f, q) && q[0] == b && Last(q) == c;
    var r := p + q[1..];
    forall i | 0 <= i < |r| - 1
      ensures Adjacent(f, r[i], r[i + 1])
    {
      if i < |p| - 1 {
        assert r[i] == p[i] && r[i + 1] == p[i + 1];
      } else {
        assert r[i] == q[i - (|p| - 1)] && r[i + 1] == q[i - (|p| - 1) + 1];
      }
    }
    assert Walk(f, r) && r[0] == a && Last(r) == c;
  }

  lemma {:induction false} ConnectedBack(f: Func, p: seq<nat>)
    requires Walk(f, p)
    ensures Connected(f, Last(p), p[0])
  {
    if |p| == 1 {
      ConnectedItself(f, p[0]);
    } else {
      ConnectedBack(f, p[1..]);
      assert Adjacent(f, p[0], p[0 + 1]);
      ConnectedStep(f, p[1], p[0]);
      ConnectedTrans(f, Last(p), p[1], p[0]);
    }
  }

  lemma ConnectedSym(f: Func, a: nat, b: nat)
    requires Connected(f, a, b)
    ensures Connected(f, b, a)
  {
    var p: seq<nat> :| Walk(f, p) && p[0] == a && Last(p) == b;
    ConnectedBack(f, p);
  }

  // A labelling that is equal across links is equal across walks.
  lemma {:induction false} WalkKeepsLabel(f: Func, mark: nat -> nat, p: seq<nat>)
    requires Walk(f, p)
    requires forall a, b :: Linked(f, Hoisted(f), a, b) ==> mark(a) == mark(b)
    ensures mark(p[0]) == mark(Last(p))
  {
    hide Linked, Hoisted;
    if |p| > 1 {
      assert Adjacent(f, p[0], p[0 + 1]);
      WalkKeepsLabel(f, mark, p[1..]);
    }
  }

  /* The result of the analysis */

  datatype Subgraph = Subgraph(inputParameters: set<nat>, ops: seq<Op>)

  function GroupOf(ops: seq<Op>): set<nat> {
    set op | op in ops :: op.id
  }

  predicate ReadsArg(ops: seq<Op>, p: nat) {
    exists op :: op in ops && Arg(p) in op.operands
  }

  // The subgraphs are the connected components of the ops that move, each in the order of the
  // body, with exactly the arguments their ops read.
  ghost predicate IsPartition(f: Func, subgraphs: seq<Subgraph>) {
    && (forall s :: s in subgraphs ==> s.ops != [] && s.ops == Filter(InGroup(GroupOf(s.ops)), f.ops))
    && (forall op :: op in f.ops && Moves(f, Hoisted(f), op) ==> exists s :: s in subgraphs && op in s.ops)
    && (forall s, x, y :: s in subgraphs && x in s.ops && y in f.ops ==>
          (y in s.ops <==> Moves(f, Hoisted(f), y) && Connected(f, x.id, y.id)))
    && (forall i, j :: 0 <= i < j < |subgraphs| ==> GroupOf(subgraphs[i].ops) !! GroupOf(subgraphs[j].ops))
    && (forall s, p: nat :: s in subgraphs ==> (p in s.inputParameters <==> ReadsArg(s.ops, p)))
  }
}
