/**
 * The `UnionFind` helper of the texture-atlas builder: a parent forest over
 * vertex indices, with path halving in `root`, union by re-rooting in
 * `link`, and a `compact` pass that numbers the components densely in the
 * order in which their roots are first met.
 *
 * The abstract value of the forest is the sequence `roots`: the
 * representative of every element. The specification functions below
 * describe what `link` and `compact` do to that sequence.
 */
module Components {

  /** The set of labels that occur in a sequence. */
  function Values(rs: seq<int>): set<int>
  {
    set i | 0 <= i < |rs| :: rs[i]
  }

  /**
   * Joining the classes of a and b: every element labelled like b takes
   * a's label (the root of p1 is hung under the root of p0).
   */
  function Merge(roots: seq<nat>, a: nat, b: nat): (r: seq<nat>)
    requires a < |roots| && b < |roots|
    ensures |r| == |roots|
  {
    seq(|roots|, i requires 0 <= i < |roots| =>
      if roots[i] == roots[b] then roots[a] else roots[i])
  }

  /**
   * A merge puts a and b in one class, joins exactly the two classes
   * involved and leaves every other pair of elements as it was.
   */
  lemma MergeJoinsTwoClasses(roots: seq<nat>, a: nat, b: nat)
    requires a < |roots| && b < |roots|
    ensures Merge(roots, a, b)[a] == Merge(roots, a, b)[b]
    ensures forall i, j :: 0 <= i < |roots| && 0 <= j < |roots| ==>
      (Merge(roots, a, b)[i] == Merge(roots, a, b)[j] <==>
        roots[i] == roots[j] ||
        ((roots[i] == roots[a] || roots[i] == roots[b]) &&
         (roots[j] == roots[a] || roots[j] == roots[b])))
  {
  }

  /** Merging two elements that already share a class changes nothing. */
  lemma MergeWithinClass(roots: seq<nat>, a: nat, b: nat)
    requires a < |roots| && b < |roots| && roots[a] == roots[b]
    ensures Merge(roots, a, b) == roots
  {
  }

  /**
   * The map `compact` builds: each label gets the number of distinct labels
   * met before its first occurrence. Its keys are the labels of rs and its
   * values are a bijection onto [0, |r|).
   */
  function RemapOf(rs: seq<int>): (r: map<int, int>)
    ensures r.Keys == Values(rs)
    ensures forall x :: x in r ==> 0 <= r[x] < |r|
    ensures forall x, y {:trigger r[x], r[y]} :: x in r && y in r && r[x] == r[y] ==> x == y
  {
    if rs == [] then map[]
    else
      var m := RemapOf(rs[..|rs| - 1]);
      var x := rs[|rs| - 1];
      assert Values(rs) == Values(rs[..|rs| - 1]) + {x} by {
        forall v | v in Values(rs) ensures v in Values(rs[..|rs| - 1]) + {x} {
          var i :| 0 <= i < |rs| && rs[i] == v;
          if i < |rs| - 1 {
            assert rs[..|rs| - 1][i] == v;
          }
        }
      }
      if x in m then m
      else
        assert |m[x := |m|]| == |m| + 1;
        m[x := |m|]
  }

  /** The component id `compact` assigns to every element. */
  function Compacted(rs: seq<int>): (ids: seq<int>)
    ensures |ids| == |rs|
  {
    var m := RemapOf(rs);
    seq(|rs|, i requires 0 <= i < |rs| => assert rs[i] in Values(rs); m[rs[i]])
  }

  /**
   * The ids are dense: they lie in [0, number of distinct labels), and two
   * elements share an id exactly when they share a label.
   */
  lemma CompactedIsPartition(rs: seq<int>)
    ensures forall i :: 0 <= i < |rs| ==> 0 <= Compacted(rs)[i] < |Values(rs)|
    ensures forall i, j :: 0 <= i < |rs| && 0 <= j < |rs| ==>
      (Compacted(rs)[i] == Compacted(rs)[j] <==> rs[i] == rs[j])
  {
    var m := RemapOf(rs);
    assert |m| == |m.Keys|;
    forall i | 0 <= i < |rs| ensures Compacted(rs)[i] == m[rs[i]] && rs[i] in m {
      assert rs[i] in Values(rs);
    }
  }

  /** One more label: the map gains it with the next id, unless already present. */
  lemma RemapOfStep(rs: seq<int>, i: nat)
    requires i < |rs|
    ensures RemapOf(rs[..i + 1]) ==
      if rs[i] in RemapOf(rs[..i]) then RemapOf(rs[..i])
      else RemapOf(rs[..i])[rs[i] := |RemapOf(rs[..i])|]
  {
    assert rs[..i + 1][..i] == rs[..i];
  }

  /** Ids read off the final map are the compacted ids, and there are as many as labels. */
  lemma CompactedFromMap(rs: seq<int>, ids: seq<int>)
    requires |ids| == |rs|
    requires forall k :: 0 <= k < |rs| ==> rs[k] in RemapOf(rs) && ids[k] == RemapOf(rs)[rs[k]]
    ensures ids == Compacted(rs) && |RemapOf(rs)| == |Values(rs)|
  {
    var m := RemapOf(rs);
    assert |m| == |m.Keys|;
  }

  /** Adding later labels never renumbers the labels already seen. */
  lemma {:induction false} RemapOfPrefix(rs: seq<int>, k: nat)
    requires k <= |rs|
    ensures forall x :: x in RemapOf(rs[..k]) ==> x in RemapOf(rs) && RemapOf(rs)[x] == RemapOf(rs[..k])[x]
  {
    if k < |rs| {
      RemapOfPrefix(rs[..|rs| - 1], k);
      assert rs[..|rs| - 1][..k] == rs[..k];
    } else {
      assert rs[..k] == rs;
    }
  }

  /** There are at most as many distinct labels as elements. */
  lemma {:induction false} ValuesAtMostLength(rs: seq<int>)
    ensures |Values(rs)| <= |rs|
  {
    if rs != [] {
      var pre := rs[..|rs| - 1];
      ValuesAtMostLength(pre);
      assert Values(rs) == Values(pre) + {rs[|rs| - 1]} by {
        forall v | v in Values(rs) ensures v in Values(pre) + {rs[|rs| - 1]} {
          var i :| 0 <= i < |rs| && rs[i] == v;
          if i < |rs| - 1 {
            assert pre[i] == v;
          }
        }
      }
    }
  }

  /** Some label of m carries id k. */
  predicate IdTaken(m: map<int, int>, k: int)
  {
    exists x :: x in m && m[x] == k
  }

  /** Every id below the number of labels is given to some label. */
  lemma {:induction false} RemapOfOnto(rs: seq<int>)
    ensures forall k :: 0 <= k < |RemapOf(rs)| ==> IdTaken(RemapOf(rs), k)
  {
    if rs != [] {
      var pre := rs[..|rs| - 1];
      var x := rs[|rs| - 1];
      var m := RemapOf(pre);
      RemapOfOnto(pre);
      if x !in m {
        var m' := m[x := |m|];
        assert RemapOf(rs) == m';
        forall k | 0 <= k < |m'|
          ensures IdTaken(m', k)
        {
          if k < |m| {
            assert IdTaken(m, k);
            var y :| y in m && m[y] == k;
            assert m'[y] == k;
          } else {
            assert m'[x] == k;
          }
        }
      }
    }
  }

  /** Some element carries id k. */
  predicate IdUsed(ids: seq<int>, k: int)
  {
    exists i :: 0 <= i < |ids| && ids[i] == k
  }

  /** Every id in [0, number of components) is the id of some element. */
  lemma CompactedOnto(rs: seq<int>)
    ensures forall k :: 0 <= k < |Values(rs)| ==> IdUsed(Compacted(rs), k)
  {
    var m := RemapOf(rs);
    assert |m| == |m.Keys|;
    RemapOfOnto(rs);
    forall k | 0 <= k < |Values(rs)|
      ensures IdUsed(Compacted(rs), k)
    {
      assert IdTaken(m, k);
      var x :| x in m && m[x] == k;
      var i :| 0 <= i < |rs| && rs[i] == x;
      assert Compacted(rs)[i] == k;
    }
  }

  /**
   * Components are numbered in order of first occurrence: the first element
   * of a new component gets the count of the components seen before it.
   */
  lemma CompactedFirstOccurrence(rs: seq<int>, i: nat)
    requires i < |rs| && rs[i] !in rs[..i]
    ensures Compacted(rs)[i] == |Values(rs[..i])|
  {
    RemapOfPrefix(rs, i + 1);
    RemapOfStep(rs, i);
    assert rs[i] !in Values(rs[..i]);
    var m := RemapOf(rs[..i]);
    assert |m| == |m.Keys|;
    assert rs[i] in Values(rs);
  }

  /**
   * The invariant of a parent forest: parents stay in range, every element's
   * representative is a root, a root is its own representative, and rank
   * strictly grows along every parent link (so the links are acyclic).
   */
  ghost predicate Forest(parents: seq<int>, roots: seq<nat>, rank: seq<nat>, maxRank: nat)
  {
    && |roots| == |parents| && |rank| == |parents|
    && (forall i {:trigger parents[i]} :: 0 <= i < |parents| ==>
          0 <= parents[i] < |parents| && roots[parents[i]] == roots[i] &&
          (parents[i] == i ==> roots[i] == i) &&
          (parents[i] != i ==> rank[i] < rank[parents[i]]))
    && (forall i {:trigger roots[i]} :: 0 <= i < |parents| ==>
          roots[i] < |parents| && parents[roots[i]] == roots[i] &&
          (roots[i] != i ==> rank[i] < rank[roots[i]]))
    && (forall i {:trigger rank[i]} :: 0 <= i < |parents| ==> rank[i] <= maxRank)
  }

  /** Every element of the forest [0..n) is its own root: the state after `init`. */
  lemma SingletonsFormForest(n: nat)
    ensures Forest(seq(n, i => i), seq(n, i => i), seq(n, _ => 0), 0)
  {
  }

  /** Path halving at q keeps the forest and the representatives. */
  lemma HalveKeepsForest(parents: seq<int>, roots: seq<nat>, rank: seq<nat>, maxRank: nat, q: nat)
    requires Forest(parents, roots, rank, maxRank) && q < |parents|
    ensures Forest(parents[q := parents[parents[q]]], roots, rank, maxRank)
  {
    var ps := parents[q := parents[parents[q]]];
    forall i | 0 <= i < |ps|
      ensures 0 <= ps[i] < |ps| && roots[ps[i]] == roots[i]
      ensures ps[i] == i ==> roots[i] == i
      ensures ps[i] != i ==> rank[i] < rank[ps[i]]
    {
      if i == q {
        var pq := parents[q];
        assert roots[parents[pq]] == roots[pq] == roots[q];
        if parents[pq] == q {
          assert pq == q;
        }
      }
    }
    forall i | 0 <= i < |ps|
      ensures ps[roots[i]] == roots[i]
    {
      if roots[i] == q {
        assert parents[q] == q;
      }
    }
  }

  /** Pointing one element straight at its representative keeps the forest. */
  lemma RepointKeepsForest(parents: seq<int>, roots: seq<nat>, rank: seq<nat>, maxRank: nat, i: nat)
    requires Forest(parents, roots, rank, maxRank) && i < |parents|
    ensures Forest(parents[i := roots[i]], roots, rank, maxRank)
  {
    var ps := parents[i := roots[i]];
    forall k | 0 <= k < |ps|
      ensures ps[roots[k]] == roots[k]
    {
      if roots[k] == i {
        assert parents[i] == i;
      }
    }
  }

  /** The rank after hanging root r1 under root r0: r0 climbs above r1. */
  function LinkRank(rank: seq<nat>, r0: nat, r1: nat): seq<nat>
    requires r0 < |rank| && r1 < |rank|
  {
    rank[r0 := if rank[r0] > rank[r1] then rank[r0] else rank[r1] + 1]
  }

  /** Hanging one root under another keeps the forest and merges the classes. */
  lemma LinkKeepsForest(parents: seq<int>, roots: seq<nat>, rank: seq<nat>, maxRank: nat, p0: nat, p1: nat)
    requires Forest(parents, roots, rank, maxRank) && p0 < |parents| && p1 < |parents|
    requires roots[p0] != roots[p1]
    ensures Forest(parents[roots[p1] := roots[p0]], Merge(roots, p0, p1),
                   LinkRank(rank, roots[p0], roots[p1]),
                   if maxRank >= LinkRank(rank, roots[p0], roots[p1])[roots[p0]] then maxRank
                   else LinkRank(rank, roots[p0], roots[p1])[roots[p0]])
  {
    LinkKeepsParentLinks(parents, roots, rank, maxRank, p0, p1);
    LinkKeepsRootLinks(parents, roots, rank, maxRank, p0, p1);
  }

  lemma LinkKeepsParentLinks(parents: seq<int>, roots: seq<nat>, rank: seq<nat>, maxRank: nat, p0: nat, p1: nat)
    requires Forest(parents, roots, rank, maxRank) && p0 < |parents| && p1 < |parents|
    requires roots[p0] != roots[p1]
    ensures
      var ps, rs, rank' := parents[roots[p1] := roots[p0]], Merge(roots, p0, p1), LinkRank(rank, roots[p0], roots[p1]);
      forall i {:trigger ps[i]} :: 0 <= i < |ps| ==>
        0 <= ps[i] < |ps| && rs[ps[i]] == rs[i] &&
        (ps[i] == i ==> rs[i] == i) &&
        (ps[i] != i ==> rank'[i] < rank'[ps[i]])
  {
    var r0, r1 := roots[p0], roots[p1];
    var ps, rs, rank' := parents[r1 := r0], Merge(roots, p0, p1), LinkRank(rank, r0, r1);
    assert parents[r0] == r0 && parents[r1] == r1;
    assert roots[r0] == r0 && roots[r1] == r1;
    forall i | 0 <= i < |ps|
      ensures 0 <= ps[i] < |ps| && rs[ps[i]] == rs[i]
      ensures ps[i] == i ==> rs[i] == i
      ensures ps[i] != i ==> rank'[i] < rank'[ps[i]]
    {
    }
  }

  lemma LinkKeepsRootLinks(parents: seq<int>, roots: seq<nat>, rank: seq<nat>, maxRank: nat, p0: nat, p1: nat)
    requires Forest(parents, roots, rank, maxRank) && p0 < |parents| && p1 < |parents|
    requires roots[p0] != roots[p1]
    ensures
      var ps, rs, rank' := parents[roots[p1] := roots[p0]], Merge(roots, p0, p1), LinkRank(rank, roots[p0], roots[p1]);
      forall i {:trigger rs[i]} :: 0 <= i < |ps| ==>
        rs[i] < |ps| && ps[rs[i]] == rs[i] && (rs[i] != i ==> rank'[i] < rank'[rs[i]])
  {
    var r0, r1 := roots[p0], roots[p1];
    var ps, rs, rank' := parents[r1 := r0], Merge(roots, p0, p1), LinkRank(rank, r0, r1);
    assert parents[r0] == r0 && parents[r1] == r1;
    assert roots[r0] == r0 && roots[r1] == r1;
    forall i | 0 <= i < |ps|
      ensures rs[i] < |ps| && ps[rs[i]] == rs[i]
      ensures rs[i] != i ==> rank'[i] < rank'[rs[i]]
    {
    }
  }

  /**
   * The state of `compact` after i elements: those elements point at their
   * representative and carry the id the map gives their representative.
   */
  ghost predicate CompactedUpTo(rs: seq<nat>, parents: seq<int>, ids: seq<int>, remap: map<int, int>, i: nat)
  {
    && i <= |rs| && |parents| == |rs| && |ids| == |rs|
    && (forall k :: 0 <= k < i ==> parents[k] == rs[k])
    && remap == RemapOf(rs[..i])
    && (forall k :: 0 <= k < i ==> rs[k] in remap && ids[k] == remap[rs[k]])
  }

  lemma CompactStep(rs: seq<nat>, parents: seq<int>, ids: seq<int>, remap: map<int, int>, i: nat)
    requires CompactedUpTo(rs, parents, ids, remap, i) && i < |rs|
    ensures
      var remap' := if rs[i] in remap then remap else remap[rs[i] := |remap|];
      CompactedUpTo(rs, parents[i := rs[i]], ids[i := remap'[rs[i]]], remap', i + 1)
  {
    RemapOfStep(rs, i);
  }

  lemma CompactDone(rs: seq<nat>, parents: seq<int>, ids: seq<int>, remap: map<int, int>)
    requires CompactedUpTo(rs, parents, ids, remap, |rs|)
    ensures ids == Compacted(rs) && |remap| == |Values(rs)|
    ensures forall k :: 0 <= k < |rs| ==> parents[k] == rs[k]
  {
    assert rs[..|rs|] == rs;
    CompactedFromMap(rs, ids);
  }

  /** Following parents from a non-root only climbs in rank, up to the root. */
  ghost predicate Shortcuts(p0: seq<int>, parents: seq<int>)
    requires |p0| == |parents|
    requires forall i :: 0 <= i < |p0| ==> 0 <= p0[i] < |p0|
  {
    forall i {:trigger parents[i]} :: 0 <= i < |parents| ==> parents[i] == p0[i] || parents[i] == p0[p0[i]]
  }

  /**
   * A disjoint-set forest over 0..|parents|-1 (the C++ class keeps a
   * `std::vector<int> parents`). The ghost fields give its meaning: `roots`
   * is every element's representative, `rank` strictly grows from a child
   * to its parent, so following parents always reaches the root.
   */
  class UnionFind {
    var parents: seq<int>
    ghost var roots: seq<nat>
    ghost var rank: seq<nat>
    ghost var maxRank: nat

    ghost predicate Valid()
      reads this
    {
      Forest(parents, roots, rank, maxRank)
    }

    /** The representative reached by following parent links from i. */
    ghost function Find(i: nat): (r: nat)
      requires Valid() && i < |parents|
      reads this
      ensures r < |parents|
      decreases maxRank - rank[i]
    {
      if parents[i] == i then i else Find(parents[i])
    }

    /** The ghost `roots` are exactly what following the parents gives. */
    lemma {:induction false} RootsFollowParents(i: nat)
      requires Valid() && i < |parents|
      ensures roots[i] == Find(i)
      decreases maxRank - rank[i]
    {
      if parents[i] != i {
        RootsFollowParents(parents[i]);
      }
    }

    /** The default constructor: an empty vector. */
    constructor ()
      ensures Valid() && parents == [] && roots == []
    {
      parents := [];
      roots := [];
      rank := [];
      maxRank := 0;
    }

    /** `init(size)`: resize to size and make every element its own root. */
    method Init(size: nat)
      modifies this
      ensures Valid()
      ensures |parents| == size && forall i :: 0 <= i < size ==> parents[i] == i
      ensures roots == seq(size, i => i)
    {
      parents := if |parents| >= size then parents[..size] else parents + seq(size - |parents|, _ => 0);
      var i := 0;
      while i < size
        invariant 0 <= i <= size && |parents| == size
        invariant forall k :: 0 <= k < i ==> parents[k] == k
      {
        parents := parents[i := i];
        i := i + 1;
      }
      assert parents == seq(size, i => i);
      roots := seq(size, i => i);
      rank := seq(size, _ => 0);
      maxRank := 0;
      SingletonsFormForest(size);
    }

    /**
     * `root(p)` with path halving: every visited element is re-pointed to
     * its grandparent. The representative of every element is unchanged.
     */
    method Root(p: int) returns (r: int)
      requires Valid() && 0 <= p < |parents|
      modifies this`parents
      ensures Valid() && |parents| == old(|parents|)
      ensures roots == old(roots)
      ensures r == roots[p] && parents[r] == r
      ensures Shortcuts(old(parents), parents)
    {
      ghost var p0 := parents;
      var q := p;
      while q != parents[q]
        invariant Valid() && |parents| == |p0| && 0 <= q < |parents|
        invariant roots[q] == roots[p]
        invariant Shortcuts(p0, parents)
        invariant forall i :: 0 <= i < |parents| && rank[i] >= rank[q] ==> parents[i] == p0[i]
        decreases maxRank - rank[q]
      {
        HalveKeepsForest(parents, roots, rank, maxRank, q);
        parents := parents[q := parents[parents[q]]];
        q := parents[q];
      }
      r := q;
    }

    /** `link(p0, p1)`: hang the root of p1 under the root of p0. */
    method Link(p0: int, p1: int)
      requires Valid() && 0 <= p0 < |parents| && 0 <= p1 < |parents|
      modifies this
      ensures Valid() && |parents| == old(|parents|)
      ensures roots == Merge(old(roots), p0, p1)
    {
      var r0 := Root(p0);
      var r1 := Root(p1);
      if r0 != r1 {
        LinkKeepsForest(parents, roots, rank, maxRank, p0, p1);
        parents := parents[r1 := r0];
        roots := Merge(roots, p0, p1);
        rank := LinkRank(rank, r0, r1);
        maxRank := if maxRank >= rank[r0] then maxRank else rank[r0];
      } else {
        parents := parents[r1 := r0];
        MergeWithinClass(roots, p0, p1);
      }
    }

    /** The root search inside `compact`: follows parent links and changes nothing. */
    method Climb(i: int) returns (root: int)
      requires Valid() && 0 <= i < |parents|
      ensures root == roots[i] && parents[root] == root
    {
      root := i;
      while root != parents[root]
        invariant 0 <= root < |parents| && roots[root] == roots[i]
        decreases maxRank - rank[root]
      {
        root := parents[root];
      }
    }

    /**
     * `compact(node_component)`: point every element straight at its root
     * and give it the dense id of its component; returns the number of
     * components.
     */
    method Compact() returns (nodeComponent: seq<int>, count: int)
      requires Valid()
      modifies this`parents
      ensures Valid() && |parents| == old(|parents|) && roots == old(roots)
      ensures forall i :: 0 <= i < |parents| ==> parents[i] == roots[i]
      ensures nodeComponent == Compacted(roots)
      ensures count == |Values(roots)|
    {
      ghost var rs := roots;
      var n := |parents|;
      nodeComponent := seq(n, _ => 0);
      var remap: map<int, int> := map[];
      var i := 0;
      while i < n
        invariant Valid() && roots == rs && |parents| == n
        invariant CompactedUpTo(rs, parents, nodeComponent, remap, i)
      {
        var root := Climb(i);
        RepointKeepsForest(parents, roots, rank, maxRank, i);
        CompactStep(rs, parents, nodeComponent, remap, i);
        parents := parents[i := root];
        if root !in remap {
          remap := remap[root := |remap|];
        }
        nodeComponent := nodeComponent[i := remap[root]];
        i := i + 1;
      }
      assert i == |rs|;
      CompactDone(rs, parents, nodeComponent, remap);
      count := |remap|;
    }
  }
}
