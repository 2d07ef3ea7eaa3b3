/** The parent table of a model's meshes (`mParents` in Model.cpp): entry i is the
    index of mesh i's parent, or -1 for a root. The table must describe a forest:
    following parents from any mesh reaches a root. Reaching a root is stated with
    an explicit bound on the number of steps. */
module ParentForest {

  /** Every entry is -1 or the index of an entry. */
  ghost predicate WellIndexed(p: seq<int>) {
    forall i :: 0 <= i < |p| ==> -1 <= p[i] < |p|
  }

  /** Following parents from `i` reaches -1 within `n` steps. */
  ghost predicate RootedWithin(p: seq<int>, i: int, n: nat)
    decreases n
  {
    i == -1 || (0 <= i < |p| && n > 0 && RootedWithin(p, p[i], n - 1))
  }

  ghost predicate Rooted(p: seq<int>, i: int) {
    exists n: nat :: RootedWithin(p, i, n)
  }

  /** Every chain of parents ends at a root: the table has no cycle. */
  ghost predicate Forest(p: seq<int>) {
    WellIndexed(p) && forall i :: 0 <= i < |p| ==> Rooted(p, i)
  }

  /** `x` is one of the first `n` entries of the chain i, p[i], p[p[i]], ... */
  ghost predicate OnChainWithin(p: seq<int>, x: int, i: int, n: nat)
    decreases n
  {
    n > 0 && 0 <= i < |p| && (i == x || OnChainWithin(p, x, p[i], n - 1))
  }

  /** `x` is `i` or one of its ancestors. */
  ghost predicate IsAncestorOrSelf(p: seq<int>, x: int, i: int) {
    exists n: nat :: OnChainWithin(p, x, i, n)
  }

  /** The first `n` entries of the chain from `i` towards the root. */
  ghost function ChainWithin(p: seq<int>, i: int, n: nat): seq<int>
    decreases n
  {
    if n == 0 || !(0 <= i < |p|) then [] else [i] + ChainWithin(p, p[i], n - 1)
  }

  lemma {:induction false} RootedMonotone(p: seq<int>, i: int, n: nat, m: nat)
    requires RootedWithin(p, i, n) && n <= m
    ensures RootedWithin(p, i, m)
    decreases n
  {
    if i != -1 {
      RootedMonotone(p, p[i], n - 1, m - 1);
    }
  }

  /** Once the root is reached, more steps add nothing to the chain. */
  lemma {:induction false} ChainFuelIrrelevant(p: seq<int>, i: int, n: nat, m: nat)
    requires RootedWithin(p, i, n) && n <= m
    ensures ChainWithin(p, i, n) == ChainWithin(p, i, m)
    decreases n
  {
    if i != -1 {
      ChainFuelIrrelevant(p, p[i], n - 1, m - 1);
    }
  }

  /** The chain from `i` to its root, `i` first: the indices `accumulateLocalUpToRoot`
      collects. */
  ghost function ChainToRoot(p: seq<int>, i: int): (c: seq<int>)
    requires Forest(p) && -1 <= i < |p|
    ensures forall k :: 0 <= k < |c| ==> 0 <= c[k] < |p|
  {
    assert i == -1 ==> RootedWithin(p, i, 0);
    assert i != -1 ==> Rooted(p, i);
    var n: nat :| RootedWithin(p, i, n);
    ChainWithinInRange(p, i, n);
    ChainWithin(p, i, n)
  }

  /** Any number of steps that reaches the root yields the chain. */
  lemma {:induction false} ChainToRootIs(p: seq<int>, i: int, n: nat)
    requires Forest(p) && -1 <= i < |p| && RootedWithin(p, i, n)
    ensures ChainToRoot(p, i) == ChainWithin(p, i, n)
  {
    var m: nat :| RootedWithin(p, i, m) && ChainToRoot(p, i) == ChainWithin(p, i, m);
    if m <= n {
      ChainFuelIrrelevant(p, i, m, n);
    } else {
      ChainFuelIrrelevant(p, i, n, m);
    }
  }

  lemma {:induction false} ChainWithinInRange(p: seq<int>, i: int, n: nat)
    ensures forall k :: 0 <= k < |ChainWithin(p, i, n)| ==> 0 <= ChainWithin(p, i, n)[k] < |p|
    decreases n
  {
    if n > 0 && 0 <= i < |p| {
      ChainWithinInRange(p, p[i], n - 1);
    }
  }

  /** The chain from a mesh starts at the mesh, continues with its parent's chain, and
      holds only valid indices; a root's chain is the root alone. */
  lemma {:induction false} ChainToRootStep(p: seq<int>, i: int)
    requires Forest(p) && 0 <= i < |p|
    ensures ChainToRoot(p, i) == [i] + ChainToRoot(p, p[i])
    ensures p[i] == -1 ==> ChainToRoot(p, i) == [i]
  {
    assert Rooted(p, i);
    var n: nat :| RootedWithin(p, i, n);
    var q := p[i];
    ChainToRootIs(p, i, n);
    ChainToRootIs(p, q, n - 1);
    if q == -1 {
      assert ChainWithin(p, q, n - 1) == [];
    }
  }

  /** `x` found on the chain within any number of steps is found within the steps
      that reach the root. */
  lemma {:induction false} OnChainBounded(p: seq<int>, x: int, i: int, n: nat, m: nat)
    requires RootedWithin(p, i, n) && OnChainWithin(p, x, i, m)
    ensures OnChainWithin(p, x, i, n)
    decreases m
  {
    if i != x {
      OnChainBounded(p, x, p[i], n - 1, m - 1);
    }
  }

  /** Appending a root (`addMesh`) keeps a forest a forest. */
  lemma {:induction false} AppendRootKeepsForest(p: seq<int>)
    requires Forest(p)
    ensures Forest(p + [-1])
  {
    var p' := p + [-1];
    forall i | 0 <= i < |p'|
      ensures Rooted(p', i)
    {
      if i == |p| {
        assert RootedWithin(p', i, 1);
      } else {
        assert Rooted(p, i);
        var n: nat :| RootedWithin(p, i, n);
        RootedAppend(p, i, n);
      }
    }
  }

  lemma {:induction false} RootedAppend(p: seq<int>, i: int, n: nat)
    requires RootedWithin(p, i, n)
    ensures RootedWithin(p + [-1], i, n)
    decreases n
  {
    if i != -1 {
      RootedAppend(p, p[i], n - 1);
    }
  }

  /** A mesh whose chain avoids `c` keeps its chain when only `c`'s entry changes. */
  lemma {:induction false} RootedAvoiding(p: seq<int>, c: int, q: int, i: int, n: nat)
    requires 0 <= c < |p| && RootedWithin(p, i, n) && !OnChainWithin(p, c, i, n)
    ensures RootedWithin(p[c := q], i, n)
    decreases n
  {
    if i != -1 {
      RootedAvoiding(p, c, q, p[i], n - 1);
    }
  }

  /** Once the new parent `q` of `c` reaches a root within `nq` steps in the new table,
      every mesh that reached a root in the old table still does. */
  lemma {:induction false} RootedAfterReparent(p: seq<int>, c: int, q: int, nq: nat, i: int, n: nat)
    requires 0 <= c < |p| && RootedWithin(p[c := q], q, nq) && RootedWithin(p, i, n)
    ensures RootedWithin(p[c := q], i, n + nq + 1)
    decreases n
  {
    var p' := p[c := q];
    if i == -1 {
    } else if i == c {
      RootedMonotone(p', q, nq, n + nq);
    } else {
      RootedAfterReparent(p, c, q, nq, p[i], n - 1);
    }
  }

  /** `setParent`'s cycle check is sound: giving `c` a parent that is not `c` itself
      nor one of its descendants (or making it a root) keeps the table a forest. */
  lemma {:induction false} ReparentKeepsForest(p: seq<int>, c: int, q: int)
    requires Forest(p) && 0 <= c < |p|
    requires q == -1 || (0 <= q < |p| && !IsAncestorOrSelf(p, c, q))
    ensures Forest(p[c := q])
  {
    var p' := p[c := q];
    var nq: nat := 0;
    if q != -1 {
      assert Rooted(p, q);
      var n: nat :| RootedWithin(p, q, n);
      assert !OnChainWithin(p, c, q, n);
      RootedAvoiding(p, c, q, q, n);
      nq := n;
    }
    assert RootedWithin(p', q, nq);
    forall i | 0 <= i < |p'|
      ensures Rooted(p', i)
    {
      assert Rooted(p, i);
      var n: nat :| RootedWithin(p, i, n);
      RootedAfterReparent(p, c, q, nq, i, n);
    }
  }

  /** A chain of the old table from `y` that reaches `c` can be replayed in the new
      table, where it only uses entries other than `c`'s. */
  lemma {:induction false} ReachesThrough(p: seq<int>, c: int, q: int, y: int, k: nat, m: nat)
    returns (m': nat)
    requires 0 <= c < |p| && OnChainWithin(p, c, y, k) && RootedWithin(p[c := q], y, m)
    ensures m' <= m && RootedWithin(p[c := q], c, m')
    decreases k
  {
    if y == c {
      m' := m;
    } else {
      m' := ReachesThrough(p, c, q, p[y], k - 1, m - 1);
    }
  }

  lemma {:induction false} CycleNeverRooted(p: seq<int>, c: int, q: int, n: nat)
    requires 0 <= c < |p| && IsAncestorOrSelf(p, c, q)
    ensures !RootedWithin(p[c := q], c, n)
    decreases n
  {
    if RootedWithin(p[c := q], c, n) {
      var k: nat :| OnChainWithin(p, c, q, k);
      var m' := ReachesThrough(p, c, q, q, k, n - 1);
      CycleNeverRooted(p, c, q, m');
    }
  }

  /** `setParent`'s cycle check is also complete: making `c` the child of itself or of
      one of its descendants leaves `c` on a cycle, so the table is no longer a forest. */
  lemma {:induction false} ReparentOntoDescendantBreaksForest(p: seq<int>, c: int, q: int)
    requires 0 <= c < |p| && IsAncestorOrSelf(p, c, q)
    ensures !Forest(p[c := q])
  {
    if Forest(p[c := q]) {
      assert Rooted(p[c := q], c);
      var n: nat :| RootedWithin(p[c := q], c, n);
      CycleNeverRooted(p, c, q, n);
    }
  }

  /** A mesh cannot become its own parent. */
  lemma SelfIsOnChain(p: seq<int>, c: int)
    requires 0 <= c < |p|
    ensures IsAncestorOrSelf(p, c, c)
  {
    assert OnChainWithin(p, c, c, 1);
  }

  /** After `a` becomes the child of `b`, `b` can no longer become the child of `a`. */
  lemma {:induction false} TwoCycleRejected(p: seq<int>, a: int, b: int)
    requires 0 <= a < |p| && 0 <= b < |p|
    ensures IsAncestorOrSelf(p[a := b], b, a)
  {
    var p' := p[a := b];
    assert OnChainWithin(p', b, b, 1);
    assert OnChainWithin(p', b, a, 2);
  }

  /** The chain of a grandchild g of c of root r is g, c, r. */
  lemma {:induction false} GrandchildChain(p: seq<int>, g: int, c: int, r: int)
    requires Forest(p) && 0 <= g < |p| && 0 <= c < |p| && 0 <= r < |p|
    requires p[g] == c && p[c] == r && p[r] == -1
    ensures ChainToRoot(p, g) == [g, c, r]
  {
    ChainToRootStep(p, r);
    ChainToRootStep(p, c);
    ChainToRootStep(p, g);
  }
}
