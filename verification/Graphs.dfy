/** Finite directed multigraphs: a node set and a list of (parent, child) pairs.
    Duplicate pairs and self-loops are allowed. */
module Graphs {
  import opened Common

  datatype Graph<T> = Graph(nodes: set<T>, pairs: seq<(T, T)>)

  ghost predicate Valid<T>(g: Graph<T>) {
    forall i :: 0 <= i < |g.pairs| ==> g.pairs[i].0 in g.nodes && g.pairs[i].1 in g.nodes
  }

  ghost predicate Edge<T>(g: Graph<T>, a: T, b: T) {
    (a, b) in g.pairs
  }

  /** A walk is a nonempty list of nodes joined by edges. */
  ghost predicate IsWalk<T>(g: Graph<T>, w: seq<T>) {
    && |w| > 0
    && w[0] in g.nodes
    && forall i :: 0 <= i < |w| - 1 ==> Edge(g, w[i], w[i + 1])
  }

  ghost predicate Reaches<T(!new)>(g: Graph<T>, a: T, b: T) {
    exists w :: IsWalk(g, w) && w[0] == a && w[|w| - 1] == b
  }

  ghost predicate IsClosedWalk<T>(g: Graph<T>, w: seq<T>) {
    IsWalk(g, w) && |w| > 1 && w[0] == w[|w| - 1]
  }

  ghost predicate OnCycle<T(!new)>(g: Graph<T>, c: T) {
    exists w :: IsClosedWalk(g, w) && w[0] == c
  }

  ghost predicate HasCycle<T(!new)>(g: Graph<T>) {
    exists c :: c in g.nodes && OnCycle(g, c)
  }

  /** The nodes that can be reached from a node on a cycle. */
  ghost function BelowCycles<T(!new)>(g: Graph<T>): set<T> {
    set x | x in g.nodes && exists c :: c in g.nodes && OnCycle(g, c) && Reaches(g, c, x)
  }

  /** Some chain of k edges ends in x. */
  ghost predicate HasChain<T(!new)>(g: Graph<T>, x: T, k: nat) {
    exists w :: IsWalk(g, w) && |w| == k + 1 && w[k] == x
  }

  /** The longest chain of ancestors of x has exactly k edges. */
  ghost predicate AtLevel<T(!new)>(g: Graph<T>, x: T, k: nat) {
    HasChain(g, x, k) && !HasChain(g, x, k + 1)
  }

  ghost function Elements<T>(s: seq<T>): set<T> {
    set x | x in s
  }

  // ---------------------------------------------------------------- walks

  lemma WalkNodes<T>(g: Graph<T>, w: seq<T>, i: nat)
    requires Valid(g) && IsWalk(g, w) && i < |w|
    ensures w[i] in g.nodes
  {
    if i > 0 {
      assert Edge(g, w[i - 1], w[i - 1 + 1]);
    }
  }

  lemma SubWalk<T>(g: Graph<T>, w: seq<T>, i: nat, j: nat)
    requires Valid(g) && IsWalk(g, w) && i < j <= |w|
    ensures IsWalk(g, w[i..j])
  {
    WalkNodes(g, w, i);
    var v := w[i..j];
    forall k | 0 <= k < |v| - 1 ensures Edge(g, v[k], v[k + 1]) {
      assert Edge(g, w[i + k], w[i + k + 1]);
    }
  }

  // --------------------------------------------------------------- chains

  lemma ChainStep<T(!new)>(g: Graph<T>, p: T, x: T, k: nat)
    requires Edge(g, p, x) && HasChain(g, p, k)
    ensures HasChain(g, x, k + 1)
  {
    var w :| IsWalk(g, w) && |w| == k + 1 && w[k] == p;
    assert (w + [x])[k + 1] == x;
  }

  lemma ChainParent<T(!new)>(g: Graph<T>, x: T, k: nat) returns (p: T)
    requires Valid(g) && HasChain(g, x, k + 1)
    ensures p in g.nodes && Edge(g, p, x) && HasChain(g, p, k)
  {
    var w :| IsWalk(g, w) && |w| == k + 2 && w[k + 1] == x;
    p := w[k];
    assert Edge(g, w[k], w[k + 1]);
    SubWalk(g, w, 0, k + 1);
    assert w[0..k + 1][k] == p;
  }

  /** Dropping the first nodes of a chain leaves a shorter one. */
  lemma ChainShorter<T(!new)>(g: Graph<T>, x: T, k: nat, m: nat)
    requires Valid(g) && HasChain(g, x, k) && m <= k
    ensures HasChain(g, x, m)
  {
    var w :| IsWalk(g, w) && |w| == k + 1 && w[k] == x;
    SubWalk(g, w, k - m, k + 1);
    assert w[k - m..k + 1][m] == x;
  }

  lemma ChainZero<T(!new)>(g: Graph<T>, x: T)
    requires x in g.nodes
    ensures HasChain(g, x, 0)
  {
    assert IsWalk(g, [x]) && [x][0] == x;
  }

  lemma LevelUnique<T(!new)>(g: Graph<T>, x: T, k: nat, m: nat)
    requires Valid(g) && AtLevel(g, x, k) && AtLevel(g, x, m)
    ensures k == m
  {
    if k < m {
      ChainShorter(g, x, m, k + 1);
    } else if m < k {
      ChainShorter(g, x, k, m + 1);
    }
  }

  // ---------------------------------------------------- counting arguments

  lemma SubsetSize<T>(a: set<T>, b: set<T>)
    requires a <= b
    ensures |a| <= |b|
    ensures |a| == |b| ==> a == b
  {
    assert b == a + (b - a);
    assert |b| == |a| + |b - a|;
  }

  lemma DistinctSize<T>(s: seq<T>)
    requires Distinct(s)
    ensures |Elements(s)| == |s|
  {
    if s != [] {
      var n := |s| - 1;
      DistinctSize(s[..n]);
      assert s == s[..n] + [s[n]];
      assert Elements(s) == Elements(s[..n]) + {s[n]};
      assert s[n] !in s[..n];
    } else {
      assert Elements(s) == {};
    }
  }

  /** More list positions than values: some value is repeated. */
  lemma Pigeonhole<T>(s: seq<T>, values: set<T>) returns (i: nat, j: nat)
    requires Elements(s) <= values && |s| > |values|
    ensures i < j < |s| && s[i] == s[j]
  {
    if Distinct(s) {
      DistinctSize(s);
      SubsetSize(Elements(s), values);
      assert false;
    }
    i, j :| 0 <= i < j < |s| && s[i] == s[j];
  }

  // ------------------------------------- what a dependency sort can remove

  /** Distinct nodes, each listed after all its parents. */
  ghost predicate ParentsFirst<T(!new)>(g: Graph<T>, order: seq<T>) {
    && Distinct(order)
    && Elements(order) <= g.nodes
    && forall k, p :: 0 <= k < |order| && Edge(g, p, order[k]) ==> p in order[..k]
  }

  ghost predicate HasParentIn<T>(g: Graph<T>, rest: set<T>, x: T) {
    exists p :: p in rest && Edge(g, p, x)
  }

  /** Every node of the set has a parent in the set. */
  ghost predicate Stuck<T(!new)>(g: Graph<T>, rest: set<T>) {
    forall x {:trigger HasParentIn(g, rest, x)} :: x in rest ==> HasParentIn(g, rest, x)
  }

  /** Walking backwards inside a stuck set never ends. */
  lemma {:induction false} BackWalk<T(!new)>(g: Graph<T>, rest: set<T>, x: T, n: nat) returns (w: seq<T>)
    requires rest <= g.nodes && Stuck(g, rest) && x in rest
    ensures IsWalk(g, w) && |w| == n + 1 && w[n] == x && Elements(w) <= rest
  {
    if n == 0 {
      w := [x];
    } else {
      assert HasParentIn(g, rest, x);
      var p :| p in rest && Edge(g, p, x);
      var v := BackWalk(g, rest, p, n - 1);
      w := v + [x];
    }
  }

  /** Along a walk that ends in a listed node, all nodes are listed, and earlier. */
  lemma {:induction false} WalkListed<T(!new)>(g: Graph<T>, order: seq<T>, w: seq<T>, k: nat) returns (j: nat)
    requires IsWalk(g, w) && ParentsFirst(g, order)
    requires k < |order| && order[k] == w[|w| - 1]
    ensures j <= k && order[j] == w[0] && (|w| > 1 ==> j < k)
    decreases |w|
  {
    if |w| == 1 {
      j := k;
    } else {
      var v := w[..|w| - 1];
      assert Edge(g, w[|w| - 2], w[|w| - 2 + 1]);
      assert w[|w| - 2] in order[..k];
      var m :| 0 <= m < k && order[..k][m] == w[|w| - 2];
      forall i | 0 <= i < |v| - 1 ensures Edge(g, v[i], v[i + 1]) {
        assert Edge(g, w[i], w[i + 1]);
      }
      j := WalkListed(g, order, v, m);
    }
  }

  /** A parents-first list whose complement is stuck leaves exactly what lies on or below cycles. */
  lemma StuckIsBelowCycles<T(!new)>(g: Graph<T>, order: seq<T>, rest: set<T>)
    requires Valid(g) && ParentsFirst(g, order)
    requires rest == g.nodes - Elements(order) && Stuck(g, rest)
    ensures rest == BelowCycles(g)
    ensures rest != {} <==> HasCycle(g)
  {
    forall x | x in rest ensures x in BelowCycles(g) {
      var c := StuckHasCycleAbove(g, rest, x);
    }
    forall x | x in BelowCycles(g) ensures x in rest {
      var c :| c in g.nodes && OnCycle(g, c) && Reaches(g, c, x);
      BelowCycleNotListed(g, order, c, x);
    }
    if HasCycle(g) {
      var c :| c in g.nodes && OnCycle(g, c);
      assert IsWalk(g, [c]) && [c][0] == c;
      assert Reaches(g, c, c);
      assert c in BelowCycles(g);
    }
    if x :| x in rest {
      assert x in BelowCycles(g);
    }
  }

  lemma StuckHasCycleAbove<T(!new)>(g: Graph<T>, rest: set<T>, x: T) returns (c: T)
    requires Valid(g) && rest <= g.nodes && Stuck(g, rest) && x in rest
    ensures c in g.nodes && OnCycle(g, c) && Reaches(g, c, x)
  {
    var w := BackWalk(g, rest, x, |rest|);
    var i, j := Pigeonhole(w, rest);
    c := w[i];
    WalkNodes(g, w, i);
    SubWalk(g, w, i, j + 1);
    assert IsClosedWalk(g, w[i..j + 1]);
    SubWalk(g, w, i, |w|);
    assert w[i..|w|][0] == c && w[i..|w|][|w| - i - 1] == x;
  }

  lemma BelowCycleNotListed<T(!new)>(g: Graph<T>, order: seq<T>, c: T, x: T)
    requires Valid(g) && ParentsFirst(g, order)
    requires OnCycle(g, c) && Reaches(g, c, x)
    ensures x !in order
  {
    if x in order {
      var k :| 0 <= k < |order| && order[k] == x;
      var w :| IsWalk(g, w) && w[0] == c && w[|w| - 1] == x;
      var j := WalkListed(g, order, w, k);
      var v :| IsClosedWalk(g, v) && v[0] == c;
      var m := WalkListed(g, order, v, j);
      assert false;
    }
  }
}
