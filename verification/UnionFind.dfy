/**
 * The union-find forest of the const-eval analysis, as maps from an id to its parent and its rank:
 * what its roots are, and what path compression and union by rank do to them.
 */
module UnionFind {
  // Ranks strictly increase along parent links, so every path ends in a root.
  ghost predicate Forest(parent: map<nat, nat>, rank: map<nat, nat>) {
    && parent.Keys == rank.Keys
    && forall x {:trigger parent[x]} :: x in parent ==> parent[x] in parent && (parent[x] != x ==> rank[x] < rank[parent[x]])
  }

  function Above(rank: map<nat, nat>, x: nat): set<nat>
    requires x in rank
  {
    set y | y in rank && rank[x] < rank[y]
  }

  function Root(parent: map<nat, nat>, rank: map<nat, nat>, x: nat): (r: nat)
    requires Forest(parent, rank) && x in parent
    ensures r in parent && parent[r] == r && (r == x || rank[x] < rank[r])
    decreases Above(rank, x)
  {
    if parent[x] == x then x else
      assert parent[x] in Above(rank, x);
      Root(parent, rank, parent[x])
  }

  lemma AboveShrinks(parent: map<nat, nat>, rank: map<nat, nat>, x: nat)
    requires Forest(parent, rank) && x in parent && parent[x] != x
    ensures Above(rank, parent[x]) < Above(rank, x)
  {
    assert parent[x] in Above(rank, x);
  }

  lemma RootOfRoot(parent: map<nat, nat>, rank: map<nat, nat>, x: nat)
    requires Forest(parent, rank) && x in parent && parent[x] == x
    ensures Root(parent, rank, x) == x
  {}

  lemma RootOfParent(parent: map<nat, nat>, rank: map<nat, nat>, x: nat)
    requires Forest(parent, rank) && x in parent
    ensures parent[x] in parent && Root(parent, rank, x) == Root(parent, rank, parent[x])
  {}

  lemma RelinkIsForest(parent: map<nat, nat>, rank: map<nat, nat>, x: nat, to: nat)
    requires Forest(parent, rank) && x in parent && to in parent && (x == to || rank[x] < rank[to])
    ensures Forest(parent[x := to], rank)
  {
    hide Forest;
    var p := parent[x := to];
    SameDomain(parent, rank, x);
    RelinkKeys(parent, rank, x, to);
    forall y | y in p
      ensures p[y] in p && (p[y] != y ==> y in rank && p[y] in rank && rank[y] < rank[p[y]])
    {
      ForestAt(parent, rank, if y == x then to else y);
    }
    ForestFrom(p, rank);
  }

  lemma RelinkKeys(parent: map<nat, nat>, rank: map<nat, nat>, x: nat, to: nat)
    requires Forest(parent, rank) && x in parent
    ensures parent[x := to].Keys == parent.Keys == rank.Keys
  {}

  lemma ForestAt(parent: map<nat, nat>, rank: map<nat, nat>, y: nat)
    requires Forest(parent, rank) && y in parent
    ensures y in rank && parent[y] in parent && parent[y] in rank && (parent[y] != y ==> rank[y] < rank[parent[y]])
  {}

  lemma ForestFrom(parent: map<nat, nat>, rank: map<nat, nat>)
    requires parent.Keys == rank.Keys
    requires forall y {:trigger parent[y]} :: y in parent ==>
      parent[y] in parent && (parent[y] != y ==> y in rank && parent[y] in rank && rank[y] < rank[parent[y]])
    ensures Forest(parent, rank)
  {}

  // Pointing an id at its root changes nobody's root.
  lemma {:induction false} CompressionKeepsRoots(parent: map<nat, nat>, rank: map<nat, nat>, x: nat, y: nat)
    requires Forest(parent, rank) && x in parent && y in parent
    ensures Forest(parent[x := Root(parent, rank, x)], rank)
    ensures Root(parent[x := Root(parent, rank, x)], rank, y) == Root(parent, rank, y)
    decreases Above(rank, y)
  {
    hide Forest, Root;
    var root := Root(parent, rank, x);
    var compressed := parent[x := root];
    RelinkIsForest(parent, rank, x, root);
    RootOfParent(compressed, rank, y);
    if compressed[y] == y {
      RootOfRoot(compressed, rank, y);
      if y != x {
        RootOfRoot(parent, rank, y);
      }
    } else if y == x {
      RootOfRoot(compressed, rank, root);
    } else {
      AboveShrinks(parent, rank, y);
      RootOfParent(parent, rank, y);
      CompressionKeepsRoots(parent, rank, x, parent[y]);
    }
  }

  // Hanging one root under another of higher rank merges exactly their two classes.
  lemma {:induction false} LinkMerges(parent: map<nat, nat>, rank: map<nat, nat>, low: nat, high: nat, y: nat)
    requires Forest(parent, rank) && y in parent
    requires low in parent && parent[low] == low && high in parent && parent[high] == high
    requires low in rank && high in rank && rank[low] < rank[high]
    ensures Forest(parent[low := high], rank)
    ensures Root(parent[low := high], rank, y) == if Root(parent, rank, y) == low then high else Root(parent, rank, y)
    decreases Above(rank, y)
  {
    hide Forest, Root;
    var linked := parent[low := high];
    RelinkIsForest(parent, rank, low, high);
    RootOfParent(linked, rank, y);
    if y == low {
      RootOfRoot(linked, rank, high);
      RootOfRoot(parent, rank, low);
    } else if parent[y] == y {
      RootOfRoot(parent, rank, y);
      RootOfRoot(linked, rank, y);
    } else {
      AboveShrinks(parent, rank, y);
      RootOfParent(parent, rank, y);
      LinkMerges(parent, rank, low, high, parent[y]);
    }
  }

  // Raising a root's rank keeps every root.
  lemma {:induction false} RaiseKeepsRoots(parent: map<nat, nat>, rank: map<nat, nat>, top: nat, y: nat)
    requires Forest(parent, rank) && y in parent && top in parent && parent[top] == top
    ensures Forest(parent, rank[top := rank[top] + 1])
    ensures Root(parent, rank[top := rank[top] + 1], y) == Root(parent, rank, y)
    decreases Above(rank, y)
  {
    assert rank[top := rank[top] + 1].Keys == parent.Keys;
    if parent[y] != y {
      AboveShrinks(parent, rank, y);
      RaiseKeepsRoots(parent, rank, top, parent[y]);
    }
  }

  // A new id is a class of its own.
  lemma {:induction false} FreshKeepsRoots(parent: map<nat, nat>, rank: map<nat, nat>, x: nat, y: nat)
    requires Forest(parent, rank) && x !in parent && y in parent
    ensures Forest(parent[x := x], rank[x := 0])
    ensures Root(parent[x := x], rank[x := 0], y) == Root(parent, rank, y)
    decreases Above(rank, y)
  {
    if parent[y] != y {
      AboveShrinks(parent, rank, y);
      FreshKeepsRoots(parent, rank, x, parent[y]);
    }
  }

  /* Balance */

  function Pow2(n: nat): (r: nat)
    ensures r > n
  {
    if n == 0 then 1 else 2 * Pow2(n - 1)
  }

  function Class(parent: map<nat, nat>, rank: map<nat, nat>, r: nat): set<nat>
    requires Forest(parent, rank)
  {
    set x | x in parent && Root(parent, rank, x) == r
  }

  // A root of rank r has at least 2^r members.
  ghost predicate Balanced(parent: map<nat, nat>, rank: map<nat, nat>)
    requires Forest(parent, rank)
  {
    forall r :: r in parent && parent[r] == r ==> Pow2(rank[r]) <= |Class(parent, rank, r)|
  }

  lemma {:induction false} Pow2Grows(a: nat, b: nat)
    requires a <= b
    ensures Pow2(a) <= Pow2(b)
  {
    if a < b {
      Pow2Grows(a, b - 1);
    }
  }

  lemma {:induction false} SubsetSize(a: set<nat>, b: set<nat>)
    requires a <= b
    ensures |a| <= |b|
  {
    if a != {} {
      var x :| x in a;
      SubsetSize(a - {x}, b - {x});
    }
  }

  // Hence no rank exceeds the logarithm of the number of ids.
  lemma RankIsLogarithmic(parent: map<nat, nat>, rank: map<nat, nat>, x: nat)
    requires Forest(parent, rank) && Balanced(parent, rank) && x in parent
    ensures Pow2(rank[x]) <= |parent.Keys|
  {
    var r := Root(parent, rank, x);
    Pow2Grows(rank[x], rank[r]);
    SubsetSize(Class(parent, rank, r), parent.Keys);
  }

  lemma SameDomain(parent: map<nat, nat>, rank: map<nat, nat>, x: nat)
    requires Forest(parent, rank)
    ensures x in parent <==> x in rank
  {}

  // Classes depend on the roots only.
  lemma SameClass(parent: map<nat, nat>, rank: map<nat, nat>, p: map<nat, nat>, k: map<nat, nat>, r: nat)
    requires Forest(parent, rank) && Forest(p, k) && p.Keys == parent.Keys
    requires forall y :: y in parent ==> Root(p, k, y) == Root(parent, rank, y)
    ensures Class(p, k, r) == Class(parent, rank, r)
  {
    hide Forest, Root;
  }

  // A root of the compressed forest was a root before, and its class is the same.
  lemma CompressedClass(parent: map<nat, nat>, rank: map<nat, nat>, x: nat, r: nat)
    requires Forest(parent, rank) && x in parent && r in parent && parent[x := Root(parent, rank, x)][r] == r
    ensures parent[r] == r && Forest(parent[x := Root(parent, rank, x)], rank)
    ensures Class(parent[x := Root(parent, rank, x)], rank, r) == Class(parent, rank, r)
  {
    hide Forest, Class;
    var compressed := parent[x := Root(parent, rank, x)];
    CompressionKeepsRoots(parent, rank, x, x);
    forall y | y in parent
      ensures Root(compressed, rank, y) == Root(parent, rank, y)
    {
      CompressionKeepsRoots(parent, rank, x, y);
    }
    RelinkKeys(parent, rank, x, Root(parent, rank, x));
    hide Root;
    SameClass(parent, rank, compressed, rank, r);
  }

  lemma CompressionIsBalanced(parent: map<nat, nat>, rank: map<nat, nat>, x: nat)
    requires Forest(parent, rank) && Balanced(parent, rank) && x in parent
    ensures Forest(parent[x := Root(parent, rank, x)], rank)
    ensures Balanced(parent[x := Root(parent, rank, x)], rank)
  {
    hide Forest, Root, Class, Pow2;
    var compressed := parent[x := Root(parent, rank, x)];
    CompressionKeepsRoots(parent, rank, x, x);
    RelinkKeys(parent, rank, x, Root(parent, rank, x));
    forall r | r in compressed && compressed[r] == r
      ensures Pow2(rank[r]) <= |Class(compressed, rank, r)|
    {
      CompressedClass(parent, rank, x, r);
    }
  }

  lemma FreshIsRoot(parent: map<nat, nat>, rank: map<nat, nat>, x: nat)
    requires Forest(parent, rank) && x !in parent
    ensures Forest(parent[x := x], rank[x := 0])
    ensures Root(parent[x := x], rank[x := 0], x) == x
  {
    RootOfRoot(parent[x := x], rank[x := 0], x);
  }

  lemma FreshClass(parent: map<nat, nat>, rank: map<nat, nat>, p: map<nat, nat>, k: map<nat, nat>, x: nat, r: nat)
    requires Forest(parent, rank) && Forest(p, k) && p.Keys == parent.Keys + {x} && x !in parent
    requires Root(p, k, x) == x
    requires forall y :: y in parent ==> Root(p, k, y) == Root(parent, rank, y) && Root(p, k, y) != x
    ensures Class(p, k, r) == if r == x then {x} else Class(parent, rank, r)
  {
    hide Forest, Root;
  }

  lemma FreshKeys(parent: map<nat, nat>, x: nat)
    ensures parent[x := x].Keys == parent.Keys + {x}
  {}

  lemma FreshClasses(parent: map<nat, nat>, rank: map<nat, nat>, x: nat, r: nat)
    requires Forest(parent, rank) && x !in parent
    ensures Forest(parent[x := x], rank[x := 0])
    ensures Class(parent[x := x], rank[x := 0], r) == if r == x then {x} else Class(parent, rank, r)
  {
    hide Forest, Root, Class;
    FreshIsRoot(parent, rank, x);
    var p, k := parent[x := x], rank[x := 0];
    forall y | y in parent
      ensures Root(p, k, y) == Root(parent, rank, y) && Root(p, k, y) != x
    {
      FreshKeepsRoots(parent, rank, x, y);
    }
    FreshKeys(parent, x);
    FreshClass(parent, rank, p, k, x, r);
  }

  lemma FreshIsBalanced(parent: map<nat, nat>, rank: map<nat, nat>, x: nat)
    requires Forest(parent, rank) && Balanced(parent, rank) && x !in parent
    ensures Forest(parent[x := x], rank[x := 0]) && Balanced(parent[x := x], rank[x := 0])
  {
    hide Forest, Root, Class;
    FreshIsRoot(parent, rank, x);
    var p, k := parent[x := x], rank[x := 0];
    forall r | r in p && p[r] == r
      ensures r in k && Pow2(k[r]) <= |Class(p, k, r)|
    {
      SameDomain(p, k, r);
      FreshClasses(parent, rank, x, r);
      if r != x {
        SameDomain(parent, rank, r);
      }
    }
  }

  // `unionSubgraphs` on two different roots: the parent and the rank maps afterwards.
  function Top(rank: map<nat, nat>, x: nat, y: nat): nat
    requires x in rank && y in rank
  {
    if rank[x] < rank[y] then y else x
  }

  function LinkedParent(parent: map<nat, nat>, rank: map<nat, nat>, x: nat, y: nat): map<nat, nat>
    requires x in rank && y in rank
  {
    if rank[x] < rank[y] then parent[x := y] else parent[y := x]
  }

  function LinkedRank(rank: map<nat, nat>, x: nat, y: nat): map<nat, nat>
    requires x in rank && y in rank
  {
    if rank[x] == rank[y] then rank[x := rank[x] + 1] else rank
  }

  lemma UnionMerges(parent: map<nat, nat>, rank: map<nat, nat>, x: nat, y: nat, z: nat)
    requires Forest(parent, rank) && x in parent && y in parent && x in rank && y in rank && z in parent
    requires parent[x] == x && parent[y] == y && x != y
    ensures Forest(LinkedParent(parent, rank, x, y), LinkedRank(rank, x, y))
    ensures z in LinkedParent(parent, rank, x, y)
    ensures Root(LinkedParent(parent, rank, x, y), LinkedRank(rank, x, y), z)
            == if Root(parent, rank, z) in {x, y} then Top(rank, x, y) else Root(parent, rank, z)
  {
    hide Forest, Root;
    if rank[x] < rank[y] {
      LinkMerges(parent, rank, x, y, z);
    } else if rank[x] > rank[y] {
      LinkMerges(parent, rank, y, x, z);
    } else {
      RaiseKeepsRoots(parent, rank, x, z);
      LinkMerges(parent, rank[x := rank[x] + 1], y, x, z);
    }
  }

  lemma MergedClass(parent: map<nat, nat>, rank: map<nat, nat>, p: map<nat, nat>, k: map<nat, nat>, x: nat, y: nat, top: nat, r: nat)
    requires Forest(parent, rank) && Forest(p, k) && p.Keys == parent.Keys && top in {x, y}
    requires forall z :: z in parent ==> Root(p, k, z) == if Root(parent, rank, z) in {x, y} then top else Root(parent, rank, z)
    ensures r == top ==> Class(p, k, r) == Class(parent, rank, x) + Class(parent, rank, y)
    ensures r !in {x, y} ==> Class(p, k, r) == Class(parent, rank, r)
  {
    hide Forest, Root;
  }

  lemma LinkedKeys(parent: map<nat, nat>, rank: map<nat, nat>, x: nat, y: nat)
    requires x in rank && y in rank && x in parent && y in parent
    ensures LinkedParent(parent, rank, x, y).Keys == parent.Keys
  {}

  lemma UnionClass(parent: map<nat, nat>, rank: map<nat, nat>, x: nat, y: nat, r: nat)
    requires Forest(parent, rank) && x in parent && y in parent && x in rank && y in rank
    requires parent[x] == x && parent[y] == y && x != y
    ensures Forest(LinkedParent(parent, rank, x, y), LinkedRank(rank, x, y))
    ensures r == Top(rank, x, y) ==>
      Class(LinkedParent(parent, rank, x, y), LinkedRank(rank, x, y), r) == Class(parent, rank, x) + Class(parent, rank, y)
    ensures r !in {x, y} ==>
      Class(LinkedParent(parent, rank, x, y), LinkedRank(rank, x, y), r) == Class(parent, rank, r)
  {
    hide Forest, Root, Class, LinkedRank, LinkedParent;
    var p, k, top := LinkedParent(parent, rank, x, y), LinkedRank(rank, x, y), Top(rank, x, y);
    LinkedKeys(parent, rank, x, y);
    UnionMerges(parent, rank, x, y, x);
    forall z | z in parent
      ensures Root(p, k, z) == if Root(parent, rank, z) in {x, y} then top else Root(parent, rank, z)
    {
      UnionMerges(parent, rank, x, y, z);
    }
    MergedClass(parent, rank, p, k, x, y, top, r);
  }

  lemma UnionIsBalanced(parent: map<nat, nat>, rank: map<nat, nat>, x: nat, y: nat)
    requires Forest(parent, rank) && Balanced(parent, rank) && x in parent && y in parent && x in rank && y in rank
    requires parent[x] == x && parent[y] == y && x != y
    ensures Forest(LinkedParent(parent, rank, x, y), LinkedRank(rank, x, y))
    ensures Balanced(LinkedParent(parent, rank, x, y), LinkedRank(rank, x, y))
  {
    hide Forest, Root, Class;
    UnionMerges(parent, rank, x, y, x);
    var p, k, top := LinkedParent(parent, rank, x, y), LinkedRank(rank, x, y), Top(rank, x, y);
    forall r | r in p && p[r] == r
      ensures r in k && Pow2(k[r]) <= |Class(p, k, r)|
    {
      SameDomain(p, k, r);
      UnionClass(parent, rank, x, y, r);
      if r == top {
        DisjointClasses(parent, rank, x, y);
      }
    }
  }

  lemma DisjointClasses(parent: map<nat, nat>, rank: map<nat, nat>, x: nat, y: nat)
    requires Forest(parent, rank) && x != y
    ensures |Class(parent, rank, x) + Class(parent, rank, y)| == |Class(parent, rank, x)| + |Class(parent, rank, y)|
  {
    hide Root, Forest;
    assert Class(parent, rank, x) !! Class(parent, rank, y);
  }
}
