/**
 * The pass of `lib/Transforms/ConstEvalHoist.cpp` from end to end: undo what an earlier run did, then
 * hoist.
 */
module ConstEvalPass {
  import opened IR
  import opened Outlining
  import opened ConstEvalSpec
  import opened HoistSpec
  import opened ConstEvalMeaning
  import opened Renaming
  import Dedup
  import U = ConstEvalUndo
  import H = ConstEvalHoist
  import R = RoundTrip

  // The program is one the pass made of a function, cut by cut.
  ghost predicate MadeOf(f: Func, q: Program, subgraphs: seq<Subgraph>, cuts: seq<Cut>) {
    IsPartition(f, subgraphs) && CutsOf(f, subgraphs, cuts) && q == Outlined(f, cuts, |cuts|)
  }

  ghost predicate SameMeaning(p: Program, q: Program) {
    && p.main.ops != [] && q.main.ops != []
    && forall interp: Interp, args: seq<int> :: |args| == p.main.args ==> RunProgram(interp, q, args) == RunProgram(interp, p, args)
  }

  // `runOnOperation` of the hoisting pass. It fails exactly on a program in which some const-eval
  // function is not called exactly once.
  method RunOnOperation(p: Program, ghost arity: (string, Attributes) -> nat)
      returns (ok: bool, q: Program, ghost subgraphs: seq<Subgraph>, ghost cuts: seq<Cut>)
    requires U.Coherent(p) && U.ProgramFollowsArity(p, arity)
    ensures ok <==> U.OneCallEach(p.main.ops, 0, |p.consts|)
    ensures ok ==> MadeOf(U.Undone(p).main, q, subgraphs, cuts)
    ensures ok ==> SameMeaning(p, q)
    ensures ok ==> R.Undoable(q, arity)
    ensures ok ==> CallsAreConstant(q) && q.main.constArgs == p.main.constArgs
    ensures ok ==> forall i, a :: 0 <= i < |cuts| && a in cuts[i].inputs ==> a in p.main.constArgs
  {
    hide U.Coherent, U.ProgramFollowsArity, U.OneCallEach, U.Undone, WellFormed, NoCalls, IsPartition, CutsOf, Outlined, SameMeaning, R.Undoable, CallsAreConstant;
    q, subgraphs, cuts := p, [], [];
    var f := p.main;
    if p.consts != [] {
      var undo := new U.UndoConstEvalTransform(p);
      var outcome := undo.UndoConstEvalImpl(arity);
      if outcome != U.Completed {
        return false, q, subgraphs, cuts;
      }
      f := undo.main;
    } else {
      NothingToUndo(p);
    }
    UndoneIsPlain(p, arity);
    var hoist := new H.ConstEvalHoistTransform(f);
    var outcome;
    outcome, subgraphs, cuts := hoist.ProcessFunction();
    q := Program(hoist.main, hoist.consts);
    PassKeepsMeaning(p, subgraphs, cuts, arity);
    OutlinedConstants(f, subgraphs, cuts);
    ok := true;
  }

  // What a run leaves of one parent function.
  ghost predicate Hoists(p: Program, q: Program, arity: (string, Attributes) -> nat) {
    && SameMeaning(p, q) && R.Undoable(q, arity)
    && CallsAreConstant(q) && q.main.constArgs == p.main.constArgs
    && exists subgraphs, cuts :: MadeOf(U.Undone(p).main, q, subgraphs, cuts)
  }

  // `runOnOperation` on a module of several parent functions, each with the const-eval functions it
  // calls. It fails exactly when one of them is not called exactly once.
  method RunOnModule(parents: seq<Program>, ghost arity: (string, Attributes) -> nat) returns (ok: bool, hoisted: seq<Program>)
    requires forall i :: 0 <= i < |parents| ==> U.Coherent(parents[i]) && U.ProgramFollowsArity(parents[i], arity)
    ensures ok <==> forall i :: 0 <= i < |parents| ==> U.OneCallEach(parents[i].main.ops, 0, |parents[i].consts|)
    ensures ok ==> |hoisted| == |parents| && forall i :: 0 <= i < |parents| ==> Hoists(parents[i], hoisted[i], arity)
  {
    hide U.Coherent, U.ProgramFollowsArity, U.OneCallEach, U.Undone, SameMeaning, MadeOf, R.Undoable, CallsAreConstant;
    hoisted := [];
    for k := 0 to |parents|
      invariant |hoisted| == k
      invariant forall i :: 0 <= i < k ==> U.OneCallEach(parents[i].main.ops, 0, |parents[i].consts|)
      invariant forall i :: 0 <= i < k ==> Hoists(parents[i], hoisted[i], arity)
    {
      var q;
      ghost var subgraphs, cuts;
      ok, q, subgraphs, cuts := RunOnOperation(parents[k], arity);
      if !ok {
        return;
      }
      assert Hoists(parents[k], q, arity);
      hoisted := hoisted + [q];
    }
    ok := true;
  }

  lemma NothingToUndo(p: Program)
    requires U.Coherent(p) && p.consts == []
    ensures U.OneCallEach(p.main.ops, 0, 0) && U.Undone(p) == p
  {
    hide WellFormed;
  }

  // What undoing leaves can be hoisted.
  lemma UndoneIsPlain(p: Program, arity: (string, Attributes) -> nat)
    requires U.Coherent(p) && U.ProgramFollowsArity(p, arity) && U.OneCallEach(p.main.ops, 0, |p.consts|)
    ensures WellFormed(U.Undone(p).main) && NoCalls(U.Undone(p).main.ops)
    ensures U.Undone(p).consts == [] && U.Undone(p).main.args == p.main.args
    ensures U.FollowsArity(U.Undone(p).main.ops, arity) && U.Undone(p).main.constArgs == p.main.constArgs
  {
    hide WellFormed, NoCalls, U.OneCallEach, U.FoundCalls, U.Ready, U.InlinedAll, U.FollowsArity, Dedup.Deduplicated;
    var args: seq<int> := seq(p.main.args, (i: nat) requires i < p.main.args => 0);
    var interp: Interp := (name: string, attrs: Attributes, xs: seq<int>, r: nat) => 0;
    U.UndoKeepsMeaning(interp, p, arity, args);
    var funcToCall := U.TableOf(p);
    var n := |p.consts|;
    U.ReadyAt(p, funcToCall, arity, n);
    U.InlinedAllKeepsMeaning(interp, p, funcToCall, arity, n, args);
    ReadyArity(U.InlinedAll(p, n), p.consts, funcToCall, n, arity);
    if p.consts == [] {
      U.InlinedNone(p);
    } else {
      DeduplicatedArity(U.InlinedAll(p, n), arity);
      R.DeduplicatedArgs(U.InlinedAll(p, n));
      U.InlinedAllArgs(p, n);
    }
  }

  lemma ReadyArity(g: Func, consts: seq<Func>, funcToCall: map<nat, nat>, c: nat, arity: (string, Attributes) -> nat)
    requires U.Ready(g, consts, funcToCall, c, arity)
    ensures U.FollowsArity(g.ops, arity)
  {}

  lemma DeduplicatedArity(g: Func, arity: (string, Attributes) -> nat)
    requires U.FollowsArity(g.ops, arity)
    ensures U.FollowsArity(Dedup.Deduplicated(g).ops, arity)
    ensures Dedup.Deduplicated(g).args == g.args
  {
    hide Dedup.Dups, Dedup.MergeAll;
    forall x | x in Dedup.Deduplicated(g).ops && x.kind.Shared?
      ensures x.results == arity(x.name, x.attrs)
    {
      Dedup.DeduplicatedMembers(g, x);
    }
  }

  lemma PassKeepsMeaning(p: Program, subgraphs: seq<Subgraph>, cuts: seq<Cut>, arity: (string, Attributes) -> nat)
    requires U.Coherent(p) && U.ProgramFollowsArity(p, arity) && U.OneCallEach(p.main.ops, 0, |p.consts|)
    requires CutsOf(U.Undone(p).main, subgraphs, cuts)
    ensures SameMeaning(p, Outlined(U.Undone(p).main, cuts, |cuts|))
    ensures R.Undoable(Outlined(U.Undone(p).main, cuts, |cuts|), arity)
  {
    hide U.ProgramFollowsArity, U.OneCallEach, U.Undone, Ordered, FromShared, NoCalls, FitsAt, Outlined, RunProgram, R.Undoable;
    UndoneIsPlain(p, arity);
    var f := U.Undone(p).main;
    OutlinedIntact(f, cuts, |cuts|);
    R.OutlinedIsUndoable(f, cuts, |cuts|, arity);
    forall interp: Interp, args: seq<int> | |args| == p.main.args
      ensures RunProgram(interp, Outlined(f, cuts, |cuts|), args) == RunProgram(interp, p, args)
    {
      U.UndoKeepsMeaning(interp, p, arity, args);
      HoistingKeepsMeaning(interp, f, cuts, |cuts|, args);
      assert U.Undone(p) == Program(f, []);
    }
  }

  lemma OutlinedConstants(f: Func, subgraphs: seq<Subgraph>, cuts: seq<Cut>)
    requires WellFormed(f) && NoCalls(f.ops) && CutsOf(f, subgraphs, cuts)
    ensures Outlined(f, cuts, |cuts|).main.constArgs == f.constArgs
  {
    hide WellFormed, NoCalls, FitsAt, Outlined;
    OutlinedIntact(f, cuts, |cuts|);
  }

  // Running the pass on its own output never fails.
  lemma PassCanRunAgain(q: Program, arity: (string, Attributes) -> nat)
    requires R.Undoable(q, arity)
    ensures U.Coherent(q) && U.ProgramFollowsArity(q, arity) && U.OneCallEach(q.main.ops, 0, |q.consts|)
  {
    R.UndoableHasCalls(q, arity);
  }

  // And it finds the hoisted ops, the groups and the parameters it found before.
  lemma PassIsStable(f: Func, q: Program, subs: seq<Subgraph>, cuts: seq<Cut>, q': Program, subs': seq<Subgraph>, cuts': seq<Cut>, arity: (string, Attributes) -> nat)
      returns (org: map<nat, nat>)
    requires WellFormed(f) && NoCalls(f.ops) && U.FollowsArity(f.ops, arity)
    requires MadeOf(f, q, subs, cuts) && MadeOf(U.Undone(q).main, q', subs', cuts')
    ensures var u := U.Undone(q).main;
      && Renamed(f, u, org)
      && (forall x :: x in u.ops && !x.kind.Shared? ==> (x.id in Hoisted(u) <==> Origin(org, x.id) in Hoisted(f)))
      && (forall t :: t in subs' ==> exists s :: s in subs && SameGroup(f, u, org, t, s))
      && (forall s :: s in subs ==> exists t :: t in subs' && SameGroup(f, u, org, t, s))
  {
    hide WellFormed, NoCalls, IsPartition, Outlined, Hoisted, Renamed, U.Undone, SameGroup, CutsOf, U.FollowsArity;
    org := R.HoistUndoHoist(f, subs, cuts, subs', arity);
  }
}
