/**
 * The scheduler of `lib/Scheduler/Scheduler.cpp` and `include/ttmlir/Scheduler/Scheduler.h`: a state
 * machine that hands out the ops of a function one by one, each after the ops it depends on.
 */
module Scheduler {
  import opened Permutations

  datatype Dialect = TTIR | TTNN | Other

  // A use of a result of an earlier op, by the op's position in the function.
  datatype Use = Use(op: nat, result: nat)

  datatype Op = Op(dialect: Dialect, isEmpty: bool, isGetDevice: bool, results: nat, operands: seq<Use>)

  type Func = seq<Op>

  // `isTTSchedulableOp`.
  predicate IsSchedulable(op: Op) {
    (op.dialect == TTNN && op.results > 0 && !op.isEmpty && !op.isGetDevice) || (op.dialect == TTIR && !op.isEmpty)
  }

  // Uses follow definitions, and the ops to schedule have a first result.
  predicate WellFormed(f: Func) {
    && (forall i, k :: 0 <= i < |f| && 0 <= k < |f[i].operands| ==> f[i].operands[k].op < i)
    && (forall i :: 0 <= i < |f| && IsSchedulable(f[i]) ==> f[i].results > 0)
  }

  function SchedulableOps(f: Func): set<nat> {
    set i: nat | i < |f| && IsSchedulable(f[i])
  }

  // A direct dependency: a use of the first result of an op that is scheduled too.
  predicate DependsOn(f: Func, u: nat, p: nat) {
    u < |f| && p < |f| && IsSchedulable(f[u]) && IsSchedulable(f[p]) && Use(p, 0) in f[u].operands
  }

  // Each op comes after everything it depends on.
  ghost predicate LinearExtension(f: Func, schedule: seq<nat>) {
    forall i, p: nat :: 0 <= i < |schedule| && DependsOn(f, schedule[i], p) ==> p in schedule[..i]
  }

  class SchedulerState {
    ghost const func: Func
    var scheduledOpsMap: set<nat>
    var schedule: seq<nat>
    var unscheduledOps: set<nat>
    var dependencies: map<nat, seq<nat>>

    // The scheduled and the unscheduled ops partition the schedulable ones, and no op is scheduled twice.
    ghost predicate Valid()
      reads this
    {
      && WellFormed(func)
      && scheduledOpsMap == Elements(schedule) && Distinct(schedule)
      && scheduledOpsMap !! unscheduledOps && scheduledOpsMap + unscheduledOps == SchedulableOps(func)
      && dependencies.Keys == SchedulableOps(func)
      && (forall u: nat, p: nat :: u in dependencies ==> (p in dependencies[u] <==> DependsOn(func, u, p)))
    }

    ghost predicate Ready(op: nat)
      reads this
    {
      forall p: nat :: DependsOn(func, op, p) ==> p in scheduledOpsMap
    }

    constructor (f: Func)
      requires WellFormed(f)
      ensures Valid() && func == f && schedule == [] && unscheduledOps == SchedulableOps(f)
    {
      func := f;
      scheduledOpsMap, schedule, unscheduledOps, dependencies := {}, [], {}, map[];
      new;
      for i := 0 to |f|
        invariant schedule == [] && scheduledOpsMap == {}
        invariant forall j: nat :: j in unscheduledOps <==> j < i && IsSchedulable(f[j])
        invariant dependencies.Keys == unscheduledOps && forall u :: u in dependencies ==> dependencies[u] == []
      {
        if IsSchedulable(f[i]) {
          dependencies := dependencies[i := []];
          unscheduledOps := unscheduledOps + {i};
        }
      }
      assert unscheduledOps == SchedulableOps(f);
      for i := 0 to |f|
        invariant schedule == [] && scheduledOpsMap == {} && unscheduledOps == SchedulableOps(f)
        invariant dependencies.Keys == SchedulableOps(f)
        invariant forall u: nat, p: nat :: u in dependencies ==> (p in dependencies[u] <==> p < i && DependsOn(f, u, p))
      {
        if IsSchedulable(f[i]) {
          AddUsers(f, i);
        }
      }
    }

    // Enters an op into the dependencies of the users of its first result.
    method AddUsers(f: Func, i: nat)
      requires WellFormed(f) && i < |f| && IsSchedulable(f[i]) && dependencies.Keys == SchedulableOps(f)
      requires forall u: nat, p: nat :: u in dependencies ==> (p in dependencies[u] <==> p < i && DependsOn(f, u, p))
      modifies this`dependencies
      ensures dependencies.Keys == SchedulableOps(f)
      ensures forall u: nat, p: nat :: u in dependencies ==> (p in dependencies[u] <==> p <= i && DependsOn(f, u, p))
    {
      for u := 0 to |f|
        invariant dependencies.Keys == SchedulableOps(f)
        invariant forall v: nat, p: nat :: v in dependencies ==> (p in dependencies[v] <==> (p < i || (p == i && v < u)) && DependsOn(f, v, p))
      {
        var before := dependencies;
        for k := 0 to |f[u].operands|
          invariant dependencies.Keys == SchedulableOps(f)
          invariant forall v :: v in dependencies && v != u ==> dependencies[v] == before[v]
          invariant u in dependencies ==> forall p: nat :: p in dependencies[u] <==> p in before[u] || (p == i && Use(i, 0) in f[u].operands[..k])
        {
          assert f[u].operands[..k + 1] == f[u].operands[..k] + [f[u].operands[k]];
          if f[u].operands[k] == Use(i, 0) && IsSchedulable(f[u]) && u != i {
            dependencies := dependencies[u := dependencies[u] + [i]];
          }
        }
        assert f[u].operands[..|f[u].operands|] == f[u].operands;
      }
    }

    constructor Copy(other: SchedulerState)
      ensures func == other.func && scheduledOpsMap == other.scheduledOpsMap && schedule == other.schedule
      ensures unscheduledOps == other.unscheduledOps && dependencies == other.dependencies
    {
      func, scheduledOpsMap, schedule := other.func, other.scheduledOpsMap, other.schedule;
      unscheduledOps, dependencies := other.unscheduledOps, other.dependencies;
    }

    method CanSchedule(op: nat) returns (r: bool)
      requires Valid() && op in unscheduledOps
      ensures r <==> Ready(op)
    {
      for k := 0 to |dependencies[op]|
        invariant forall j :: 0 <= j < k ==> dependencies[op][j] in scheduledOpsMap
      {
        if dependencies[op][k] !in scheduledOpsMap {
          assert dependencies[op][k] in dependencies[op];
          return false;
        }
      }
      r := true;
    }

    // The unscheduled ops that are ready, in any order; while there are unscheduled ops, one is.
    method GetScheduleableOps() returns (ops: seq<nat>)
      requires Valid()
      ensures Distinct(ops) && forall op :: op in ops <==> op in unscheduledOps && Ready(op)
      ensures unscheduledOps != {} ==> ops != []
    {
      ops := [];
      var rest := unscheduledOps;
      while rest != {}
        invariant rest <= unscheduledOps && Distinct(ops)
        invariant forall op :: op in ops <==> op in unscheduledOps - rest && Ready(op)
      {
        var op :| op in rest;
        rest := rest - {op};
        var ready := CanSchedule(op);
        if ready {
          ops := ops + [op];
        }
      }
      if unscheduledOps != {} {
        var first := FirstIsReady();
        assert first in ops;
      }
    }

    // The first unscheduled op depends on nothing unscheduled.
    lemma FirstIsReady() returns (first: nat)
      requires Valid() && unscheduledOps != {}
      ensures first in unscheduledOps && Ready(first)
    {
      first := Least(unscheduledOps);
      forall p: nat | DependsOn(func, first, p)
        ensures p in scheduledOpsMap
      {
        assert p < first;
        assert p in SchedulableOps(func);
      }
    }

    // Scheduling a ready op keeps the schedule a linear extension, and scheduling any other breaks it.
    method ScheduleOp(op: nat)
      requires Valid() && op in unscheduledOps
      modifies this`scheduledOpsMap, this`schedule, this`unscheduledOps
      ensures Valid()
      ensures schedule == old(schedule) + [op] && unscheduledOps == old(unscheduledOps) - {op}
      ensures scheduledOpsMap == old(scheduledOpsMap) + {op}
      ensures LinearExtension(func, schedule) <==> old(LinearExtension(func, schedule)) && old(Ready(op))
    {
      ghost var before := schedule;
      scheduledOpsMap := scheduledOpsMap + {op};
      unscheduledOps := unscheduledOps - {op};
      schedule := schedule + [op];
      ExtensionNext(func, before, op);
    }

    // An independent copy.
    method Snapshot() returns (copy: SchedulerState)
      requires Valid()
      ensures fresh(copy) && copy.Valid() && copy.func == func
      ensures copy.schedule == schedule && copy.scheduledOpsMap == scheduledOpsMap
      ensures copy.unscheduledOps == unscheduledOps && copy.dependencies == dependencies
    {
      copy := new SchedulerState.Copy(this);
    }

    method GetSchedule() returns (r: seq<nat>)
      ensures r == schedule
    {
      r := schedule;
    }

    method HasUnscheduledOps() returns (r: bool)
      ensures r <==> unscheduledOps != {}
    {
      r := unscheduledOps != {};
    }
  }

  lemma {:induction false} Least(s: set<nat>) returns (m: nat)
    requires s != {}
    ensures m in s && forall x :: x in s ==> m <= x
  {
    m :| m in s;
    if s != {m} {
      var n := Least(s - {m});
      assert forall x :: x in s ==> x == m || x in s - {m};
      m := if n < m then n else m;
    }
  }

  lemma ExtensionNext(f: Func, schedule: seq<nat>, op: nat)
    ensures LinearExtension(f, schedule + [op]) <==> LinearExtension(f, schedule) && forall p: nat :: DependsOn(f, op, p) ==> p in schedule
  {
    var next := schedule + [op];
    assert forall i :: 0 <= i < |schedule| ==> next[..i] == schedule[..i] && next[i] == schedule[i];
    assert next[..|schedule|] == schedule && next[|schedule|] == op;
  }

  // What a finished run of the scheduler can leave.
  ghost predicate IsSchedule(f: Func, schedule: seq<nat>) {
    Elements(schedule) == SchedulableOps(f) && Distinct(schedule) && LinearExtension(f, schedule)
  }

  // Every op the scheduler is for, once, each after the ops whose first result it uses.
  lemma IsScheduleIff(f: Func, schedule: seq<nat>)
    ensures IsSchedule(f, schedule) <==>
      && (forall x: nat :: x in schedule <==>
            x < |f| && !f[x].isEmpty && ((f[x].dialect == TTNN && f[x].results > 0 && !f[x].isGetDevice) || f[x].dialect == TTIR))
      && (forall i, j :: 0 <= i < j < |schedule| ==> schedule[i] != schedule[j])
      && (forall p: nat, u: nat, k :: p in schedule && u in schedule && 0 <= k < |f[u].operands| && f[u].operands[k] == Use(p, 0) ==>
            exists i, j :: 0 <= i < j < |schedule| && schedule[i] == p && schedule[j] == u)
  {
    if Elements(schedule) == SchedulableOps(f) && Distinct(schedule) {
      OrderIsExtension(f, schedule);
    }
    ScheduledIff(f, schedule);
  }

  lemma ScheduledIff(f: Func, schedule: seq<nat>)
    ensures Elements(schedule) == SchedulableOps(f) <==> forall x: nat :: x in schedule <==> x < |f| && IsSchedulable(f[x])
  {
    assert forall x: nat :: x in Elements(schedule) <==> x in schedule;
    assert forall x: nat :: x in SchedulableOps(f) <==> x < |f| && IsSchedulable(f[x]);
    if forall x: nat :: x in schedule <==> x < |f| && IsSchedulable(f[x]) {
      assert Elements(schedule) == SchedulableOps(f);
    }
  }

  lemma OrderIsExtension(f: Func, schedule: seq<nat>)
    requires Elements(schedule) == SchedulableOps(f) && Distinct(schedule)
    ensures forall x: nat :: x in schedule ==> x < |f|
    ensures LinearExtension(f, schedule) <==>
      forall p: nat, u: nat, k :: p in schedule && u in schedule && 0 <= k < |f[u].operands| && f[u].operands[k] == Use(p, 0) ==>
        exists i, j :: 0 <= i < j < |schedule| && schedule[i] == p && schedule[j] == u
  {
    assert forall x: nat :: x in schedule <==> x in SchedulableOps(f);
    if LinearExtension(f, schedule) {
      forall p: nat, u: nat, k | p in schedule && u in schedule && 0 <= k < |f[u].operands| && f[u].operands[k] == Use(p, 0)
        ensures exists i, j :: 0 <= i < j < |schedule| && schedule[i] == p && schedule[j] == u
      {
        var j :| 0 <= j < |schedule| && schedule[j] == u;
        assert DependsOn(f, u, p);
        var i :| 0 <= i < j && schedule[i] == p;
      }
    }
    if forall p: nat, u: nat, k :: p in schedule && u in schedule && 0 <= k < |f[u].operands| && f[u].operands[k] == Use(p, 0) ==>
         exists i, j :: 0 <= i < j < |schedule| && schedule[i] == p && schedule[j] == u
    {
      forall n, p: nat | 0 <= n < |schedule| && DependsOn(f, schedule[n], p)
        ensures p in schedule[..n]
      {
        assert p in SchedulableOps(f);
        var u := schedule[n];
        assert u in schedule;
        var k :| 0 <= k < |f[u].operands| && f[u].operands[k] == Use(p, 0);
        var i, j :| 0 <= i < j < |schedule| && schedule[i] == p && schedule[j] == u;
        assert j == n;
        assert schedule[..n][i] == p;
      }
    }
  }

  // One step of a run: any op among those handed out.
  method Advance(s: SchedulerState)
    requires s.Valid() && s.unscheduledOps != {} && LinearExtension(s.func, s.schedule)
    modifies s`scheduledOpsMap, s`schedule, s`unscheduledOps
    ensures s.Valid() && LinearExtension(s.func, s.schedule)
    ensures s.unscheduledOps < old(s.unscheduledOps)
  {
    hide LinearExtension, DependsOn, IsSchedulable, WellFormed, Distinct, Elements;
    var ops := s.GetScheduleableOps();
    var k :| 0 <= k < |ops|;
    assert ops[k] in ops;
    s.ScheduleOp(ops[k]);
  }

  // Any run that takes a ready op while there is one ends, with every op scheduled once and after
  // what it depends on: the TTNN ops that have results and are not empty or get-device ops, and the
  // TTIR ops that are not empty, each after the ops among them whose first result it uses.
  method Run(f: Func) returns (schedule: seq<nat>)
    requires WellFormed(f)
    ensures Elements(schedule) == SchedulableOps(f) && Distinct(schedule) && LinearExtension(f, schedule)
    ensures forall x: nat :: x in schedule <==>
      x < |f| && !f[x].isEmpty && ((f[x].dialect == TTNN && f[x].results > 0 && !f[x].isGetDevice) || f[x].dialect == TTIR)
    ensures forall p: nat, u: nat, k :: p in schedule && u in schedule && 0 <= k < |f[u].operands| && f[u].operands[k] == Use(p, 0) ==>
      exists i, j :: 0 <= i < j < |schedule| && schedule[i] == p && schedule[j] == u
  {
    hide DependsOn, IsSchedulable, WellFormed;
    var scheduler := new SchedulerState(f);
    assert LinearExtension(f, scheduler.schedule);
    hide LinearExtension;
    var more := scheduler.HasUnscheduledOps();
    while more
      invariant scheduler.Valid() && scheduler.func == f && LinearExtension(f, scheduler.schedule)
      invariant more <==> scheduler.unscheduledOps != {}
      invariant fresh(scheduler)
      decreases scheduler.unscheduledOps
    {
      Advance(scheduler);
      more := scheduler.HasUnscheduledOps();
    }
    schedule := scheduler.GetSchedule();
    IsScheduleIff(f, schedule);
  }

  // Scheduling on a snapshot leaves the original as it was.
  method ScheduleOnSnapshot(s: SchedulerState, op: nat) returns (copy: SchedulerState)
    requires s.Valid() && op in s.unscheduledOps
    ensures fresh(copy) && copy.Valid() && copy.schedule == s.schedule + [op]
    ensures s.schedule == old(s.schedule) && s.unscheduledOps == old(s.unscheduledOps) && s.scheduledOpsMap == old(s.scheduledOpsMap)
  {
    copy := s.Snapshot();
    copy.ScheduleOp(op);
  }

  /* What the dependencies leave out */

  // Uses of any result between ops to schedule.
  predicate Reads(f: Func, u: nat, p: nat) {
    u < |f| && p < |f| && IsSchedulable(f[u]) && IsSchedulable(f[p]) && exists k :: 0 <= k < |f[u].operands| && f[u].operands[k].op == p
  }

  ghost predicate RespectsReads(f: Func, schedule: seq<nat>) {
    forall i, p: nat :: 0 <= i < |schedule| && Reads(f, schedule[i], p) ==> p in schedule[..i]
  }

  // `u` depends on `p`, directly or through other ops to schedule.
  ghost predicate Follows(f: Func, u: nat, p: nat)
    decreases u
  {
    exists q: nat :: q < u && DependsOn(f, u, q) && (q == p || Follows(f, q, p))
  }

  ghost predicate EveryScheduleRespectsReads(f: Func) {
    forall schedule :: IsSchedule(f, schedule) ==> RespectsReads(f, schedule)
  }

  ghost predicate ReadsAreFollowed(f: Func) {
    forall u: nat, p: nat :: Reads(f, u, p) ==> Follows(f, u, p)
  }

  lemma {:induction false} FollowedIsEarlier(f: Func, schedule: seq<nat>, i: nat, p: nat)
    requires LinearExtension(f, schedule) && i < |schedule| && Follows(f, schedule[i], p)
    ensures p in schedule[..i]
    decreases schedule[i]
  {
    var u := schedule[i];
    var q: nat :| q < u && DependsOn(f, u, q) && (q == p || Follows(f, q, p));
    assert q in schedule[..i];
    if q != p {
      var j :| 0 <= j < i && schedule[j] == q;
      FollowedIsEarlier(f, schedule, j, p);
      assert p in schedule[..j];
    }
  }

  // A schedule respects every use whose operand the user follows.
  lemma FollowedReadsAreRespected(f: Func, schedule: seq<nat>)
    requires LinearExtension(f, schedule) && ReadsAreFollowed(f)
    ensures RespectsReads(f, schedule)
  {
    hide Reads, Follows, DependsOn;
    forall i, p: nat | 0 <= i < |schedule| && Reads(f, schedule[i], p)
      ensures p in schedule[..i]
    {
      FollowedIsEarlier(f, schedule, i, p);
    }
  }

  // Everything an op follows, and the op.
  ghost function Upstream(f: Func, u: nat): set<nat> {
    set x: nat | x < |f| && x in SchedulableOps(f) && (x == u || Follows(f, u, x))
  }

  lemma {:induction false} FollowsThrough(f: Func, u: nat, x: nat, p: nat)
    requires WellFormed(f) && Follows(f, u, x) && DependsOn(f, x, p)
    ensures Follows(f, u, p)
    decreases u
  {
    var q: nat :| q < u && DependsOn(f, u, q) && (q == x || Follows(f, q, x));
    if q == x {
      DependsFollows(f, x, p);
    } else {
      FollowsThrough(f, q, x, p);
    }
  }

  lemma DependsFollows(f: Func, u: nat, p: nat)
    requires WellFormed(f) && DependsOn(f, u, p)
    ensures p < u && Follows(f, u, p)
  {
    var k :| 0 <= k < |f[u].operands| && f[u].operands[k] == Use(p, 0);
  }

  lemma UpstreamIsClosed(f: Func, u: nat, x: nat, p: nat)
    requires WellFormed(f) && x in Upstream(f, u) && DependsOn(f, x, p)
    ensures p in Upstream(f, u)
  {
    hide Follows;
    if x == u {
      DependsFollows(f, x, p);
    } else {
      FollowsThrough(f, u, x, p);
    }
  }

  // The op and what it follows first, everything else after.
  ghost function UpstreamFirst(f: Func, u: nat): seq<nat> {
    SortedBelow(Upstream(f, u), |f|) + SortedBelow(SchedulableOps(f) - Upstream(f, u), |f|)
  }

  lemma UpstreamFirstIsSchedule(f: Func, u: nat)
    requires WellFormed(f)
    ensures IsSchedule(f, UpstreamFirst(f, u))
  {
    hide Follows, DependsOn, WellFormed, SortedBelow;
    var up, rest := Upstream(f, u), SchedulableOps(f) - Upstream(f, u);
    var a, b := SortedBelow(up, |f|), SortedBelow(rest, |f|);
    var s := a + b;
    SortedMembers(up, |f|);
    SortedMembers(rest, |f|);
    assert Elements(s) == SchedulableOps(f);
    DisjointDistinct(a, b, up, rest);
    forall i, p: nat | 0 <= i < |s| && DependsOn(f, s[i], p)
      ensures p in s[..i]
    {
      DependsFollows(f, s[i], p);
      SourceIsSchedulable(f, s[i], p);
      if i < |a| {
        assert s[i] in a;
        UpstreamIsClosed(f, u, s[i], p);
        SmallerIsEarlier(a, i, p);
        assert s[..i] == a[..i];
      } else if p in up {
        assert s[..i] == a + b[..i - |a|];
      } else {
        assert s[i] == b[i - |a|];
        SmallerIsEarlier(b, i - |a|, p);
        assert s[..i] == a + b[..i - |a|];
      }
    }
  }

  lemma SourceIsSchedulable(f: Func, u: nat, p: nat)
    requires DependsOn(f, u, p)
    ensures p in SchedulableOps(f) && u in SchedulableOps(f)
  {}

  lemma DisjointDistinct(a: seq<nat>, b: seq<nat>, s: set<nat>, t: set<nat>)
    requires Distinct(a) && Distinct(b) && s !! t
    requires (forall x :: x in a ==> x in s) && (forall x :: x in b ==> x in t)
    ensures Distinct(a + b)
  {
    forall i, j | 0 <= i < j < |a + b|
      ensures (a + b)[i] != (a + b)[j]
    {
      if i < |a| <= j {
        assert a[i] in a && b[j - |a|] in b;
      }
    }
  }

  lemma SmallerIsEarlier(s: seq<nat>, i: nat, p: nat)
    requires Ascending(s) && i < |s| && p in s && p < s[i]
    ensures p in s[..i]
  {
    var j :| 0 <= j < |s| && s[j] == p;
    assert j < i;
  }

  // A use whose operand the user does not follow is broken by some schedule.
  lemma UnfollowedReadIsBroken(f: Func, u: nat, p: nat)
    requires WellFormed(f) && Reads(f, u, p) && !Follows(f, u, p)
    ensures IsSchedule(f, UpstreamFirst(f, u)) && !RespectsReads(f, UpstreamFirst(f, u))
  {
    hide Follows, IsSchedule, SortedBelow;
    UpstreamFirstIsSchedule(f, u);
    var up := Upstream(f, u);
    var a, s := SortedBelow(up, |f|), UpstreamFirst(f, u);
    SortedMembers(up, |f|);
    var k :| 0 <= k < |f[u].operands| && f[u].operands[k].op == p;
    assert u in a && p !in a;
    var i :| 0 <= i < |a| && a[i] == u;
    assert s[i] == u && s[..i] == a[..i];
    assert p !in a[..i];
  }

  // Every schedule respects every use exactly when each user follows what it reads.
  lemma ReadsRespectedIff(f: Func)
    requires WellFormed(f)
    ensures EveryScheduleRespectsReads(f) <==> ReadsAreFollowed(f)
  {
    hide WellFormed, Reads, Follows, LinearExtension, RespectsReads, UpstreamFirst;
    if EveryScheduleRespectsReads(f) {
      forall u: nat, p: nat | Reads(f, u, p)
        ensures Follows(f, u, p)
      {
        if !Follows(f, u, p) {
          UnfollowedReadIsBroken(f, u, p);
        }
      }
    }
    if ReadsAreFollowed(f) {
      forall schedule | IsSchedule(f, schedule)
        ensures RespectsReads(f, schedule)
      {
        FollowedReadsAreRespected(f, schedule);
      }
    }
  }

  lemma NextIsReady(f: Func, schedule: seq<nat>, i: nat)
    requires IsSchedule(f, schedule) && i < |schedule|
    ensures schedule[i] in SchedulableOps(f) && schedule[i] !in Elements(schedule[..i])
    ensures forall p: nat :: DependsOn(f, schedule[i], p) ==> p in Elements(schedule[..i])
  {
    hide DependsOn, IsSchedulable;
    assert schedule[i] in Elements(schedule);
  }

  lemma CompleteSchedule(f: Func, schedule: seq<nat>)
    requires IsSchedule(f, schedule)
    ensures Elements(schedule) == SchedulableOps(f)
  {}

  // The scheduler can produce any schedule: each of its ops is among those handed out in turn.
  method Replay(f: Func, schedule: seq<nat>) returns (scheduler: SchedulerState)
    requires WellFormed(f) && IsSchedule(f, schedule)
    ensures fresh(scheduler) && scheduler.Valid() && scheduler.func == f
    ensures scheduler.schedule == schedule && scheduler.unscheduledOps == {}
  {
    hide WellFormed, DependsOn, IsSchedulable, IsSchedule, LinearExtension, Distinct;
    scheduler := new SchedulerState(f);
    for i := 0 to |schedule|
      invariant fresh(scheduler) && scheduler.Valid() && scheduler.func == f
      invariant scheduler.schedule == schedule[..i]
    {
      NextIsReady(f, schedule, i);
      var ops := scheduler.GetScheduleableOps();
      assert schedule[i] in ops;
      scheduler.ScheduleOp(schedule[i]);
      assert schedule[..i + 1] == schedule[..i] + [schedule[i]];
    }
    assert schedule[..|schedule|] == schedule;
    CompleteSchedule(f, schedule);
  }

  // A use of a second result is not a dependency, so the user may be scheduled before its operand.
  lemma SecondResultIgnored(f: Func)
    requires f == [Op(TTIR, false, false, 2, []), Op(TTIR, false, false, 1, [Use(0, 1)])]
    ensures WellFormed(f) && Elements([1, 0]) == SchedulableOps(f) && Distinct([1, 0])
    ensures LinearExtension(f, [1, 0]) && !RespectsReads(f, [1, 0])
    ensures !EveryScheduleRespectsReads(f)
  {
    assert f[1].operands == [Use(0, 1)];
    assert f[1].operands[0].op == 0;
    assert Reads(f, [1, 0][0], 0);
  }
}
