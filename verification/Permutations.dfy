/** The permutation helpers of `include/ttmlir/Utils.h`. A permutation is the list `p` with
    output[i] == input[p[i]]. */
module Permutations {

  ghost predicate Distinct<T>(s: seq<T>) {
    forall i, j :: 0 <= i < j < |s| ==> s[i] != s[j]
  }

  ghost predicate Ascending(s: seq<nat>) {
    forall i, j :: 0 <= i < j < |s| ==> s[i] < s[j]
  }

  predicate InRange(p: seq<nat>, n: nat) {
    forall i :: 0 <= i < |p| ==> p[i] < n
  }

  ghost predicate IsPerm(p: seq<nat>) {
    InRange(p, |p|) && Distinct(p)
  }

  function Elements<T>(s: seq<T>): set<T> {
    set x | x in s
  }

  lemma {:induction false} DistinctCardinality<T>(s: seq<T>)
    requires Distinct(s)
    ensures |Elements(s)| == |s|
  {
    if s != [] {
      var n := |s| - 1;
      DistinctCardinality(s[..n]);
      assert Elements(s) == Elements(s[..n]) + {s[n]};
    }
  }

  function Below(n: nat): (r: set<nat>)
    ensures |r| == n
    ensures forall x: nat :: x in r <==> x < n
  {
    if n == 0 then {} else Below(n - 1) + {n - 1}
  }

  // A permutation mentions every position.
  lemma PermCovers(p: seq<nat>, d: nat)
    requires IsPerm(p) && d < |p|
    ensures d in p
  {
    DistinctCardinality(p);
    if d !in p {
      SubsetCardinality(Elements(p), Below(|p|) - {d});
    }
  }

  lemma {:induction false} SubsetCardinality<T>(a: set<T>, b: set<T>)
    requires a <= b
    ensures |a| <= |b|
  {
    if a != {} {
      var x :| x in a;
      SubsetCardinality(a - {x}, b - {x});
    }
  }

  function IndexOf<T(==)>(s: seq<T>, x: T): (i: nat)
    requires x in s
    ensures i < |s| && s[i] == x
    ensures forall j :: 0 <= j < i ==> s[j] != x
  {
    if s[0] == x then 0 else 1 + IndexOf(s[1..], x)
  }

  // `applyPermutation`.
  function Apply<T>(input: seq<T>, p: seq<nat>): (output: seq<T>)
    requires InRange(p, |input|)
    ensures |output| == |p|
    ensures forall i :: 0 <= i < |p| ==> output[i] == input[p[i]]
  {
    seq(|p|, i requires 0 <= i < |p| => input[p[i]])
  }

  lemma ApplyConcat<T>(s: seq<T>, p: seq<nat>, q: seq<nat>)
    requires InRange(p, |s|) && InRange(q, |s|)
    ensures Apply(s, p + q) == Apply(s, p) + Apply(s, q)
    ensures Apply(s, p + q)[..|p|] == Apply(s, p) && Apply(s, p + q)[|p|..] == Apply(s, q)
  {}

  function Inverse(p: seq<nat>): (q: seq<nat>)
    requires IsPerm(p)
    ensures IsPerm(q) && |q| == |p|
    ensures forall i :: 0 <= i < |p| ==> q[p[i]] == i
    ensures forall d :: 0 <= d < |p| ==> p[q[d]] == d
  {
    assert forall d :: 0 <= d < |p| ==> d in p by {
      forall d | 0 <= d < |p| ensures d in p { PermCovers(p, d); }
    }
    seq(|p|, d requires 0 <= d < |p| => IndexOf(p, d))
  }

  lemma ApplyInverse<T>(s: seq<T>, p: seq<nat>)
    requires IsPerm(p) && |s| == |p|
    ensures Apply(Apply(s, p), Inverse(p)) == s
    ensures Apply(Apply(s, Inverse(p)), p) == s
  {}

  lemma InverseTwice(p: seq<nat>)
    requires IsPerm(p)
    ensures Inverse(Inverse(p)) == p
  {
    var q := Inverse(p);
    var r := Inverse(q);
    forall i | 0 <= i < |p|
      ensures r[i] == p[i]
    {
      assert r[q[p[i]]] == p[i];
    }
  }

  // `inversePermutation`.
  method InversePermutation(p: seq<nat>) returns (inverse: seq<nat>)
    requires IsPerm(p)
    ensures inverse == Inverse(p)
  {
    var a := new nat[|p|];
    for i := 0 to |p|
      invariant forall k :: 0 <= k < i ==> a[p[k]] == k
    {
      a[p[i]] := i;
    }
    inverse := a[..];
    forall d | 0 <= d < |p|
      ensures inverse[d] == Inverse(p)[d]
    {
      assert a[p[Inverse(p)[d]]] == Inverse(p)[d];
    }
  }

  // `generatePermutation`. The source assumes that both lists have the same elements;
  // what the result means needs only that the output's elements occur in the input.
  method GeneratePermutation<T(==)>(input: seq<T>, output: seq<T>) returns (permutation: seq<nat>)
    requires |input| == |output|
    requires forall x :: x in output ==> x in input
    ensures |permutation| == |input| && InRange(permutation, |input|)
    ensures Apply(input, permutation) == output
    ensures Distinct(output) ==> IsPerm(permutation)
  {
    var indices: map<T, nat> := map[];
    for i := 0 to |input|
      invariant forall x :: x in input[..i] ==> x in indices
      invariant forall x :: x in indices ==> indices[x] < i && input[indices[x]] == x
    {
      assert input[..i + 1] == input[..i] + [input[i]];
      indices := indices[input[i] := i];
    }
    assert input[..|input|] == input;
    permutation := [];
    for i := 0 to |output|
      invariant |permutation| == i
      invariant forall k :: 0 <= k < i ==> permutation[k] < |input| && input[permutation[k]] == output[k]
    {
      permutation := permutation + [indices[output[i]]];
    }
    if Distinct(output) {
      forall i, j | 0 <= i < j < |permutation|
        ensures permutation[i] != permutation[j]
      {
        assert input[permutation[i]] == output[i] && input[permutation[j]] == output[j];
      }
    }
  }

  // Generating the permutation between two lists, and undoing it, restores the input.
  lemma GeneratedPermutationUndone<T>(input: seq<T>, output: seq<T>, permutation: seq<nat>)
    requires |permutation| == |input| && IsPerm(permutation) && Apply(input, permutation) == output
    ensures Apply(output, Inverse(permutation)) == input
  {
    ApplyInverse(input, permutation);
  }

  // The dimensions below `rank` outside `removed`, ascending.
  function Others(rank: nat, removed: seq<nat>): (dims: seq<nat>)
    ensures InRange(dims, rank)
  {
    if rank == 0 then []
    else if rank - 1 in removed then Others(rank - 1, removed)
    else Others(rank - 1, removed) + [rank - 1]
  }

  lemma {:induction false} OthersMembers(rank: nat, removed: seq<nat>)
    ensures Distinct(Others(rank, removed))
    ensures forall d: nat :: d in Others(rank, removed) <==> d < rank && d !in removed
  {
    if rank > 0 {
      OthersMembers(rank - 1, removed);
    }
  }

  lemma OthersLength(rank: nat, removed: seq<nat>)
    requires Distinct(removed) && InRange(removed, rank)
    ensures |Others(rank, removed)| + |removed| == rank
  {
    var o := Others(rank, removed);
    OthersMembers(rank, removed);
    DistinctCardinality(removed);
    DistinctCardinality(o);
    assert Elements(o) + Elements(removed) == Below(rank);
    assert Elements(o) !! Elements(removed);
  }

  // The removed dimensions followed or preceded by the others are all dimensions.
  lemma OthersCompletePermutation(rank: nat, removed: seq<nat>)
    requires Distinct(removed) && InRange(removed, rank)
    ensures IsPerm(removed + Others(rank, removed)) && IsPerm(Others(rank, removed) + removed)
    ensures |removed| + |Others(rank, removed)| == rank
  {
    OthersLength(rank, removed);
    OthersMembers(rank, removed);
    hide Others;
    var o := Others(rank, removed);
    forall i, j | 0 <= i < |removed| && 0 <= j < |o|
      ensures removed[i] != o[j]
    {
      assert o[j] in o && removed[i] in removed;
    }
  }

  // The members of a set below `n`, ascending.
  function SortedBelow(members: set<nat>, n: nat): (r: seq<nat>) {
    if n == 0 then [] else SortedBelow(members, n - 1) + (if n - 1 in members then [n - 1] else [])
  }

  lemma {:induction false} SortedMembers(members: set<nat>, n: nat)
    ensures forall p :: p in SortedBelow(members, n) <==> p in members && p < n
    ensures Ascending(SortedBelow(members, n)) && Distinct(SortedBelow(members, n))
    ensures InRange(SortedBelow(members, n), n)
  {
    if n > 0 {
      SortedMembers(members, n - 1);
      var r := SortedBelow(members, n - 1);
      assert forall i :: 0 <= i < |r| ==> r[i] in r;
    }
  }

  function Interval(lo: nat, hi: nat): (s: seq<nat>)
    requires lo <= hi
    ensures |s| == hi - lo && forall i :: 0 <= i < |s| ==> s[i] == lo + i
  {
    seq(hi - lo, i requires 0 <= i < hi - lo => lo + i)
  }

  lemma ApplyInterval<T>(s: seq<T>, lo: nat, hi: nat)
    requires lo <= hi <= |s|
    ensures Apply(s, Interval(lo, hi)) == s[lo..hi]
  {}

  lemma {:induction false} OthersOfOne(rank: nat, v: nat)
    requires v < rank
    ensures Others(rank, [v]) == Interval(0, v) + Interval(v + 1, rank)
  {
    if v < rank - 1 {
      OthersOfOne(rank - 1, v);
      assert Interval(v + 1, rank) == Interval(v + 1, rank - 1) + [rank - 1];
    } else {
      OthersBelow(v, [v]);
      assert Interval(v + 1, rank) == [];
    }
  }

  lemma {:induction false} OthersBelow(rank: nat, removed: seq<nat>)
    requires forall x :: x in removed ==> rank <= x
    ensures Others(rank, removed) == Interval(0, rank)
  {
    if rank > 0 {
      OthersBelow(rank - 1, removed);
      assert Interval(0, rank) == Interval(0, rank - 1) + [rank - 1];
    }
  }
}
