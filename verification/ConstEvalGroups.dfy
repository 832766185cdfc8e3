/**
 * The tables of the const-eval analysis after some ops, and what processing one more hoisted op
 * does to them: ids with equal roots are exactly the connected ones, and the parameters recorded
 * for an id are exactly those its ops read.
 */
module ConstEvalGroups {
  import opened IR
  import opened Outlining
  import opened UnionFind
  import opened ConstEvalSpec

  datatype Groups = Groups(
    parent: map<nat, nat>,
    rank: map<nat, nat>,
    values: map<Value, nat>,
    ops: map<nat, nat>,
    params: map<nat, set<nat>>,
    next: nat)

  ghost predicate Sets(g: Groups) {
    && Forest(g.parent, g.rank) && Balanced(g.parent, g.rank)
    && (forall x: nat :: x in g.parent <==> x < g.next)
    && (forall o :: o in g.ops ==> g.ops[o] in g.parent)
  }

  function Label(g: Groups, o: nat): nat
    requires Forest(g.parent, g.rank) && o in g.ops && g.ops[o] in g.parent
  {
    Root(g.parent, g.rank, g.ops[o])
  }

  // The tables mention exactly the ops that move because of the hoisted ops `h`, and their results.
  ghost predicate Tracks(f: Func, h: set<nat>, g: Groups)
  {
    && (forall op :: op in f.ops ==> (op.id in g.ops <==> Moves(f, h, op)))
    && (forall o :: o in g.ops ==> HasId(f.ops, o))
    && (forall v :: v in g.values <==> exists op :: op in f.ops && op.id in g.ops && Defines(op, v))
    && (forall v :: v in g.values ==> v.Res? && v.op in g.ops && g.values[v] == g.ops[v.op])
  }

  ghost predicate LinksAgree(f: Func, h: set<nat>, g: Groups)
    requires Sets(g)
  {
    forall a, b :: Linked(f, Hoisted(f), a, b) && b in h ==> a in g.ops && b in g.ops && Label(g, a) == Label(g, b)
  }

  ghost predicate SameIsConnected(f: Func, g: Groups)
    requires Sets(g)
  {
    forall a, b :: a in g.ops && b in g.ops && Label(g, a) == Label(g, b) ==> Connected(f, a, b)
  }

  ghost predicate IsReader(h: set<nat>, g: Groups, s: nat, p: nat, op: Op) {
    op.id in h && op.id in g.ops && g.ops[op.id] == s && Arg(p) in op.operands
  }

  ghost predicate ParamsExact(f: Func, h: set<nat>, g: Groups)
  {
    && (forall s, p :: s in g.params && p in g.params[s] ==>
          exists op :: op in f.ops && IsReader(h, g, s, p, op))
    && (forall op, s, p :: op in f.ops && IsReader(h, g, s, p, op) ==> s in g.params && p in g.params[s])
  }

  ghost predicate Good(f: Func, h: set<nat>, g: Groups)
  {
    Sets(g) && Tracks(f, h, g) && LinksAgree(f, h, g) && SameIsConnected(f, g) && ParamsExact(f, h, g)
  }

  function Empty(): Groups {
    Groups(map[], map[], map[], map[], map[], 0)
  }

  lemma EmptyIsGood(f: Func)
    ensures Good(f, {}, Empty())
  {}

  /* One hoisted op */

  // What the operands of an op tell: the ids it depends on, the creation ops it is first to
  // read, and the arguments it reads.
  ghost predicate Gathered(f: Func, op: Op, g: Groups, deps: set<nat>, creations: set<Op>, inputs: set<nat>) {
    && (forall d :: d in deps <==> exists v :: v in op.operands && v in g.values && g.values[v] == d)
    && (forall c :: c in creations <==> c in f.ops && c.kind.Creation? && c.id !in g.ops && Reads(op, c))
    && (forall p: nat :: p in inputs <==> Arg(p) in op.operands)
  }

  // The classes of the roots in `merged`, and no others, have become the class of `top`.
  ghost predicate MergedBy(p: map<nat, nat>, k: map<nat, nat>, q: map<nat, nat>, l: map<nat, nat>, merged: set<nat>, top: nat) {
    hide Forest, Root;
    && Forest(p, k) && Forest(q, l) && Balanced(q, l)
    && (forall z :: z in p ==> z in q && Root(q, l, z) == if Root(p, k, z) in merged then top else Root(p, k, z))
    && (top in merged || top !in p)
  }

  ghost function RootsOf(g: Groups, deps: set<nat>): set<nat>
    requires Forest(g.parent, g.rank) && deps <= g.parent.Keys
  {
    set d | d in deps :: Root(g.parent, g.rank, d)
  }

  function Results(op: Op): set<Value> {
    set r: nat | r < op.results :: Res(op.id, r)
  }

  function AddAll<K(==)>(m: map<K, nat>, keys: set<K>, t: nat): map<K, nat> {
    m + map x | x in keys :: t
  }

  function Ids(ops: set<Op>): set<nat> {
    set c | c in ops :: c.id
  }

  function ResultsOf(ops: set<Op>): set<Value> {
    set c, r: nat | c in ops && r < c.results :: Res(c.id, r)
  }

  // The tables once the op, and the creation ops it is first to read, belong to `target`.
  function Extended(g: Groups, op: Op, creations: set<Op>, inputs: set<nat>, target: nat, parent: map<nat, nat>, rank: map<nat, nat>, next: nat): Groups {
    Groups(
      parent, rank,
      AddAll(AddAll(g.values, ResultsOf(creations), target), Results(op), target),
      AddAll(g.ops, Ids(creations) + {op.id}, target),
      if inputs == {} then g.params
      else g.params[target := (if target in g.params then g.params[target] else {}) + inputs],
      next)
  }

  // The op whose turn it is among the hoisted ones.
  ghost predicate Turn(f: Func, h: set<nat>, op: Op) {
    && Ordered(f.args, f.ops) && op in f.ops && op.kind.Ordinary?
    && op.id in Hoisted(f) && op.id !in h && h <= Hoisted(f)
    && (forall x :: x in f.ops && Reads(op, x) && x.id in Hoisted(f) ==> x.id in h)
  }

  // The new ids of the maps belong to the class `top`.
  ghost predicate Placed(g: Groups, deps: set<nat>, target: nat, parent: map<nat, nat>, rank: map<nat, nat>, top: nat) {
    && Sets(g) && deps <= g.parent.Keys
    && MergedBy(g.parent, g.rank, parent, rank, RootsOf(g, deps), top)
    && target in parent && Root(parent, rank, target) == top
  }

  lemma NotYetTracked(f: Func, h: set<nat>, g: Groups, op: Op)
    requires Turn(f, h, op) && Tracks(f, h, g)
    ensures op.id !in g.ops
  {}

  lemma MovesMore(f: Func, h: set<nat>, g: Groups, op: Op, deps: set<nat>, creations: set<Op>, inputs: set<nat>, x: Op)
    requires Turn(f, h, op) && Tracks(f, h, g) && Gathered(f, op, g, deps, creations, inputs) && x in f.ops
    ensures Moves(f, h + {op.id}, x) <==> x.id in g.ops || x.id in Ids(creations) || x.id == op.id
  {
    hide Reads, Hoisted, Ordered;
    if x.id in Ids(creations) {
      var c :| c in creations && c.id == x.id;
      UniqueOp(f.args, f.ops, c, x);
    }
    if user :| user in f.ops && user.id == op.id && Reads(user, x) {
      UniqueOp(f.args, f.ops, user, op);
    }
  }

  lemma AddAllKeys<K>(m: map<K, nat>, keys: set<K>, t: nat, x: K)
    ensures x in AddAll(m, keys, t) <==> x in m || x in keys
    ensures x in keys ==> AddAll(m, keys, t)[x] == t
    ensures x in m && x !in keys ==> AddAll(m, keys, t)[x] == m[x]
  {}

  // The op map afterwards, one id at a time.
  lemma OpsAfter(g: Groups, op: Op, creations: set<Op>, inputs: set<nat>, target: nat, parent: map<nat, nat>, rank: map<nat, nat>, next: nat, o: nat)
    requires op.id !in g.ops && forall c :: c in creations ==> c.id !in g.ops
    ensures var a := Extended(g, op, creations, inputs, target, parent, rank, next).ops;
            && (o in a <==> o in g.ops || o in Ids(creations) || o == op.id)
            && (o in g.ops ==> a[o] == g.ops[o])
            && (o in Ids(creations) || o == op.id ==> a[o] == target)
  {
    AddAllKeys(g.ops, Ids(creations) + {op.id}, target, o);
  }

  lemma TracksMoreOps(f: Func, h: set<nat>, g: Groups, op: Op, deps: set<nat>, creations: set<Op>, inputs: set<nat>, a: Groups)
    requires Turn(f, h, op) && Tracks(f, h, g) && Gathered(f, op, g, deps, creations, inputs)
    requires forall o :: o in a.ops <==> o in g.ops || o in Ids(creations) || o == op.id
    ensures forall x :: x in f.ops ==> (x.id in a.ops <==> Moves(f, h + {op.id}, x))
    ensures forall o :: o in a.ops ==> HasId(f.ops, o)
  {
    hide Moves, Ordered, Reads, Hoisted;
    forall x | x in f.ops
      ensures x.id in a.ops <==> Moves(f, h + {op.id}, x)
    {
      MovesMore(f, h, g, op, deps, creations, inputs, x);
    }
  }

  // The value map afterwards, one value at a time.
  lemma ValuesAfter(f: Func, h: set<nat>, g: Groups, op: Op, creations: set<Op>, inputs: set<nat>, target: nat, parent: map<nat, nat>, rank: map<nat, nat>, next: nat, v: Value)
    requires Tracks(f, h, g) && op.id !in g.ops && op in f.ops && Ordered(f.args, f.ops)
    requires forall c :: c in creations ==> c in f.ops && c.id !in g.ops
    ensures var a := Extended(g, op, creations, inputs, target, parent, rank, next);
            && (v in a.values <==> exists x :: x in f.ops && x.id in a.ops && Defines(x, v))
            && (v in a.values ==> v.Res? && v.op in a.ops && a.values[v] == a.ops[v.op])
  {
    hide Moves, Ordered;
    var a := Extended(g, op, creations, inputs, target, parent, rank, next);
    AddAllKeys(g.values, ResultsOf(creations), target, v);
    AddAllKeys(AddAll(g.values, ResultsOf(creations), target), Results(op), target, v);
    forall o
      ensures (o in a.ops <==> o in g.ops || o in Ids(creations) || o == op.id)
      ensures (o in g.ops ==> a.ops[o] == g.ops[o])
      ensures (o in Ids(creations) || o == op.id ==> a.ops[o] == target)
    {
      OpsAfter(g, op, creations, inputs, target, parent, rank, next, o);
    }
    if x :| x in f.ops && x.id in a.ops && Defines(x, v) {
      if x.id in Ids(creations) {
        var c :| c in creations && c.id == x.id;
        UniqueOp(f.args, f.ops, c, x);
        assert v in ResultsOf(creations);
      } else if x.id == op.id {
        UniqueOp(f.args, f.ops, op, x);
        assert v in Results(op);
      }
    }
    if v in Results(op) {
      assert Defines(op, v);
    }
    if v in ResultsOf(creations) {
      var c :| c in creations && Defines(c, v);
      assert c.id in Ids(creations);
    }
  }

  // What the groups look like afterwards, stripped to what the proofs need.
  ghost predicate Grown(g: Groups, op: Op, creations: set<Op>, top: nat, merged: set<nat>, a: Groups) {
    && Sets(g) && Sets(a)
    && (forall o :: o in a.ops <==> o in g.ops || o in Ids(creations) || o == op.id)
    && (forall o :: o in g.ops ==> o in a.ops && Label(a, o) == if Label(g, o) in merged then top else Label(g, o))
    && (forall o :: o in Ids(creations) || o == op.id ==> o in a.ops && Label(a, o) == top)
    && (top in merged || forall o :: o in g.ops ==> Label(g, o) != top)
  }

  lemma LabelAfter(g: Groups, deps: set<nat>, target: nat, parent: map<nat, nat>, rank: map<nat, nat>, top: nat, a: Groups, o: nat)
    requires Placed(g, deps, target, parent, rank, top)
    requires a.parent == parent && a.rank == rank && o in a.ops && a.ops[o] == if o in g.ops then g.ops[o] else target
    ensures a.ops[o] in parent
    ensures Label(a, o) == if o !in g.ops then top else if Label(g, o) in RootsOf(g, deps) then top else Label(g, o)
  {
    hide Forest, Balanced, Root, RootsOf;
  }

  lemma ExtendedGrows(g: Groups, op: Op, deps: set<nat>, creations: set<Op>, inputs: set<nat>, target: nat, parent: map<nat, nat>, rank: map<nat, nat>, next: nat, top: nat)
    requires Placed(g, deps, target, parent, rank, top)
    requires forall x: nat :: x in parent <==> x < next
    requires op.id !in g.ops && forall c :: c in creations ==> c.id !in g.ops
    ensures Sets(Extended(g, op, creations, inputs, target, parent, rank, next))
    ensures Grown(g, op, creations, top, RootsOf(g, deps), Extended(g, op, creations, inputs, target, parent, rank, next))
  {
    hide Forest, Balanced, Root, RootsOf, Extended, Label, Placed;
    var a := Extended(g, op, creations, inputs, target, parent, rank, next);
    PlacedTables(g, op, deps, creations, inputs, target, parent, rank, next, top);
    forall o
      ensures (o in a.ops <==> o in g.ops || o in Ids(creations) || o == op.id)
      ensures o in a.ops ==> a.ops[o] == if o in g.ops then g.ops[o] else target
    {
      OpsAfter(g, op, creations, inputs, target, parent, rank, next, o);
    }
    forall o | o in a.ops
      ensures a.ops[o] in parent
      ensures Label(a, o) == if o !in g.ops then top else if Label(g, o) in RootsOf(g, deps) then top else Label(g, o)
    {
      LabelAfter(g, deps, target, parent, rank, top, a, o);
    }
    assert Sets(a);
    forall o | o in g.ops
      ensures top in RootsOf(g, deps) || Label(g, o) != top
    {
      LabelIsId(g, o);
    }
    assert forall o :: o in Ids(creations) ==> o !in g.ops;
    assert Grown(g, op, creations, top, RootsOf(g, deps), a);
  }

  lemma LabelIsId(g: Groups, o: nat)
    requires Forest(g.parent, g.rank) && o in g.ops && g.ops[o] in g.parent
    ensures Label(g, o) in g.parent
  {}

  lemma PlacedTables(g: Groups, op: Op, deps: set<nat>, creations: set<Op>, inputs: set<nat>, target: nat, parent: map<nat, nat>, rank: map<nat, nat>, next: nat, top: nat)
    requires Placed(g, deps, target, parent, rank, top)
    ensures var a := Extended(g, op, creations, inputs, target, parent, rank, next);
            a.parent == parent && a.rank == rank && a.next == next
    ensures Sets(g) && Forest(parent, rank) && Balanced(parent, rank) && target in parent && deps <= g.parent.Keys
    ensures top in RootsOf(g, deps) || top !in g.parent
  {
    hide Forest, Balanced, Root, RootsOf;
  }

  // An op the new one reads is in its class.
  lemma ReadJoins(f: Func, h: set<nat>, g: Groups, op: Op, deps: set<nat>, creations: set<Op>, inputs: set<nat>, top: nat, a: Groups, x: Op)
    requires Turn(f, h, op) && Tracks(f, h, g) && Sets(g) && deps <= g.parent.Keys
    requires Gathered(f, op, g, deps, creations, inputs) && Grown(g, op, creations, top, RootsOf(g, deps), a)
    requires x in f.ops && Reads(op, x) && (x.kind.Creation? || x.id in Hoisted(f))
    ensures x.id in a.ops && Label(a, x.id) == top
  {
    hide Forest, Balanced, Root, Ordered, Hoisted;
    if x.id in g.ops {
      var v :| v in op.operands && Defines(x, v);
      assert v in g.values;
      assert g.values[v] in deps;
    } else {
      assert x in creations;
      assert x.id in Ids(creations);
    }
  }

  lemma LinksAgreeMore(f: Func, h: set<nat>, g: Groups, op: Op, deps: set<nat>, creations: set<Op>, inputs: set<nat>, top: nat, a: Groups)
    requires Turn(f, h, op) && Tracks(f, h, g) && Sets(g) && deps <= g.parent.Keys && LinksAgree(f, h, g)
    requires Gathered(f, op, g, deps, creations, inputs) && Grown(g, op, creations, top, RootsOf(g, deps), a)
    ensures LinksAgree(f, h + {op.id}, a)
  {
    hide Forest, Balanced, Root, Ordered, Hoisted, Tracks, Gathered, RootsOf, Reads;
    forall x, y | x in f.ops && y in f.ops && y.id in h + {op.id} && Linked(f, Hoisted(f), x.id, y.id)
      ensures x.id in a.ops && y.id in a.ops && Label(a, x.id) == Label(a, y.id)
    {
      if y.id !in h {
        var p, q :| p in f.ops && q in f.ops && p.id == x.id && q.id == op.id && Reads(q, p) && (p.kind.Creation? || x.id in Hoisted(f));
        UniqueOp(f.args, f.ops, q, op);
        ReadJoins(f, h, g, op, deps, creations, inputs, top, a, p);
      }
    }
    forall b, c | Linked(f, Hoisted(f), b, c) && c in h + {op.id}
      ensures b in a.ops && c in a.ops && Label(a, b) == Label(a, c)
    {
      var p, q :| p in f.ops && q in f.ops && p.id == b && q.id == c;
    }
  }

  // Everything in the new op's class is connected to it.
  lemma JoinedIsConnected(f: Func, h: set<nat>, g: Groups, op: Op, deps: set<nat>, creations: set<Op>, inputs: set<nat>, top: nat, a: Groups, o: nat)
    requires Turn(f, h, op) && Tracks(f, h, g) && Sets(g) && deps <= g.parent.Keys && SameIsConnected(f, g)
    requires Gathered(f, op, g, deps, creations, inputs) && Grown(g, op, creations, top, RootsOf(g, deps), a)
    requires o in a.ops && Label(a, o) == top
    ensures Connected(f, o, op.id)
  {
    hide Forest, Balanced, Root, Ordered, Hoisted, Connected, Reads;
    if o == op.id {
      ConnectedItself(f, o);
    } else if o in g.ops {
      var d :| d in deps && Root(g.parent, g.rank, d) == Label(g, o);
      var v :| v in op.operands && v in g.values && g.values[v] == d;
      assert Label(g, v.op) == Label(g, o);
      assert Connected(f, o, v.op);
      DepIsLinked(f, h, g, op, v);
      ConnectedStep(f, v.op, op.id);
      ConnectedTrans(f, o, v.op, op.id);
    } else {
      var c :| c in creations && c.id == o;
      assert Linked(f, Hoisted(f), o, op.id);
      ConnectedStep(f, o, op.id);
    }
  }

  lemma DepIsLinked(f: Func, h: set<nat>, g: Groups, op: Op, v: Value)
    requires Turn(f, h, op) && Tracks(f, h, g) && v in op.operands && v in g.values
    ensures Linked(f, Hoisted(f), v.op, op.id)
  {
    hide Ordered, Hoisted;
    var x :| x in f.ops && x.id in g.ops && Defines(x, v);
    assert Reads(op, x);
    assert Moves(f, h, x);
  }

  lemma SameIsConnectedMore(f: Func, h: set<nat>, g: Groups, op: Op, deps: set<nat>, creations: set<Op>, inputs: set<nat>, top: nat, a: Groups)
    requires Turn(f, h, op) && Tracks(f, h, g) && Sets(g) && deps <= g.parent.Keys && SameIsConnected(f, g)
    requires Gathered(f, op, g, deps, creations, inputs) && Grown(g, op, creations, top, RootsOf(g, deps), a)
    ensures SameIsConnected(f, a)
  {
    hide Forest, Balanced, Root, Tracks, Gathered, RootsOf, Turn, Connected;
    forall x, y | x in a.ops && y in a.ops && Label(a, x) == Label(a, y)
      ensures Connected(f, x, y)
    {
      if Label(a, x) == top {
        JoinedIsConnected(f, h, g, op, deps, creations, inputs, top, a, x);
        JoinedIsConnected(f, h, g, op, deps, creations, inputs, top, a, y);
        ConnectedSym(f, y, op.id);
        ConnectedTrans(f, x, op.id, y);
      } else {
        assert x in g.ops && y in g.ops && Label(g, x) == Label(g, y);
      }
    }
  }

  lemma HoistedMoves(f: Func, h: set<nat>, x: Op)
    requires x.id in h
    ensures Moves(f, h, x)
  {}

  lemma ParamsExactMore(f: Func, h: set<nat>, g: Groups, op: Op, deps: set<nat>, creations: set<Op>, inputs: set<nat>, target: nat, parent: map<nat, nat>, rank: map<nat, nat>, next: nat)
    requires Turn(f, h, op) && Tracks(f, h, g) && ParamsExact(f, h, g) && Gathered(f, op, g, deps, creations, inputs)
    requires FromShared(f.ops)
    ensures ParamsExact(f, h + {op.id}, Extended(g, op, creations, inputs, target, parent, rank, next))
  {
    hide Ordered, Hoisted, Reads, FromShared, AddAll, Moves;
    var a := Extended(g, op, creations, inputs, target, parent, rank, next);
    NotYetTracked(f, h, g, op);
    forall o
      ensures (o in a.ops <==> o in g.ops || o in Ids(creations) || o == op.id)
      ensures (o in g.ops ==> a.ops[o] == g.ops[o])
      ensures (o in Ids(creations) || o == op.id ==> a.ops[o] == target)
    {
      OpsAfter(g, op, creations, inputs, target, parent, rank, next, o);
    }
    forall s, p | s in a.params && p in a.params[s]
      ensures exists x :: x in f.ops && IsReader(h + {op.id}, a, s, p, x)
    {
      if s == target && p in inputs {
        assert IsReader(h + {op.id}, a, s, p, op);
      } else {
        var x :| x in f.ops && IsReader(h, g, s, p, x);
        assert IsReader(h + {op.id}, a, s, p, x);
      }
    }
    forall x, s, p | x in f.ops && IsReader(h + {op.id}, a, s, p, x)
      ensures s in a.params && p in a.params[s]
    {
      if x.id == op.id {
        UniqueOp(f.args, f.ops, x, op);
        assert p in inputs;
      } else {
        HoistedMoves(f, h, x);
        assert IsReader(h, g, s, p, x);
      }
    }
  }

  lemma GrownIds(g: Groups, op: Op, creations: set<Op>, top: nat, merged: set<nat>, a: Groups)
    requires Grown(g, op, creations, top, merged, a)
    ensures Sets(a) && forall o :: o in a.ops <==> o in g.ops || o in Ids(creations) || o == op.id
  {}

  // The tables stay good when a hoisted op joins them.
  lemma ExtendedIsGood(f: Func, h: set<nat>, g: Groups, op: Op, deps: set<nat>, creations: set<Op>, inputs: set<nat>, target: nat, parent: map<nat, nat>, rank: map<nat, nat>, next: nat, top: nat)
    requires Good(f, h, g) && Turn(f, h, op) && Gathered(f, op, g, deps, creations, inputs)
    requires Placed(g, deps, target, parent, rank, top)
    requires FromShared(f.ops) && forall x: nat :: x in parent <==> x < next
    ensures Good(f, h + {op.id}, Extended(g, op, creations, inputs, target, parent, rank, next))
  {
    hide Ordered, Hoisted, Reads, FromShared, AddAll, Moves, Forest, Root, Balanced, SameIsConnected, LinksAgree, ParamsExact, Extended, Sets, Grown;
    var a := Extended(g, op, creations, inputs, target, parent, rank, next);
    NotYetTracked(f, h, g, op);
    ExtendedGrows(g, op, deps, creations, inputs, target, parent, rank, next, top);
    assert Tracks(f, h + {op.id}, a) by {
      GrownIds(g, op, creations, top, RootsOf(g, deps), a);
      TracksMoreOps(f, h, g, op, deps, creations, inputs, a);
      forall v
        ensures v in a.values <==> exists x :: x in f.ops && x.id in a.ops && Defines(x, v)
        ensures v in a.values ==> v.Res? && v.op in a.ops && a.values[v] == a.ops[v.op]
      {
        ValuesAfter(f, h, g, op, creations, inputs, target, parent, rank, next, v);
      }
    }
    LinksAgreeMore(f, h, g, op, deps, creations, inputs, top, a);
    SameIsConnectedMore(f, h, g, op, deps, creations, inputs, top, a);
    ParamsExactMore(f, h, g, op, deps, creations, inputs, target, parent, rank, next);
  }
}
