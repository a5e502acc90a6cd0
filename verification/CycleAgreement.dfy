/** The sorts and the cycle enumeration agree with each other. */
module CycleAgreement {
  import opened Common
  import opened Graphs
  import opened Topsort
  import opened Rotations
  import opened Cycles

  lemma StepIsEdge<T>(g: Graph<T>, alive: set<T>, a: T, b: T)
    requires Valid(g)
    ensures Step(ChildTable(g, alive), a, b) <==> a in alive && Edge(g, a, b)
  {
    KidsAreEdges(g.pairs, a, b);
  }

  /** A closed walk contains a cycle without repetition. */
  lemma {:induction false} SimpleCycleIn<T(!new)>(g: Graph<T>, w: seq<T>) returns (c: seq<T>)
    requires Valid(g) && IsClosedWalk(g, w)
    ensures SimpleCycle(ChildTable(g, g.nodes), c)
    decreases |w|
  {
    var d := w[..|w| - 1];
    if Distinct(d) {
      c := d;
      forall i | 0 <= i < |w| - 1 ensures Step(ChildTable(g, g.nodes), w[i], w[i + 1]) {
        assert Edge(g, w[i], w[i + 1]);
        StepIsEdge(g, g.nodes, w[i], w[i + 1]);
      }
      assert w[|w| - 2 + 1] == c[0];
    } else {
      var i, j :| 0 <= i < j < |d| && d[i] == d[j];
      SubWalk(g, w, i, j + 1);
      c := SimpleCycleIn(g, w[i..j + 1]);
    }
  }

  lemma ClosedWalkOf<T(!new)>(g: Graph<T>, c: seq<T>)
    requires Valid(g) && SimpleCycle(ChildTable(g, g.nodes), c)
    ensures IsClosedWalk(g, c + [c[0]])
    ensures c[0] in g.nodes && OnCycle(g, c[0])
  {
    var w := c + [c[0]];
    forall i | 0 <= i < |w| - 1 ensures Edge(g, w[i], w[i + 1]) {
      if i < |c| - 1 {
        assert Step(ChildTable(g, g.nodes), c[i], c[i + 1]);
      }
      StepIsEdge(g, g.nodes, w[i], w[i + 1]);
    }
    assert Edge(g, w[0], w[0 + 1]);
  }

  lemma HasCycleIsSimpleCycle<T(!new)>(g: Graph<T>)
    requires Valid(g)
    ensures HasCycle(g) <==> exists c :: SimpleCycle(ChildTable(g, g.nodes), c)
  {
    if HasCycle(g) {
      var n :| n in g.nodes && OnCycle(g, n);
      var w :| IsClosedWalk(g, w) && w[0] == n;
      var c := SimpleCycleIn(g, w);
    }
    if c :| SimpleCycle(ChildTable(g, g.nodes), c) {
      ClosedWalkOf(g, c);
    }
  }

  /** The sort raises CycleError exactly when the enumeration on the same child table yields something. */
  lemma SortFailsExactlyOnCycles<T(!new)>(pairs: seq<(T, T)>, r: SortOutcome<T>, cycles: seq<seq<T>>)
    requires SortsPairs(pairs, r)
    requires EnumeratesCycles(ChildTable(GraphOf(pairs), ElementsOf(pairs)), cycles)
    ensures r.CycleError? <==> cycles != []
  {
    var g := GraphOf(pairs);
    GraphOfValid(pairs);
    HasCycleIsSimpleCycle(g);
    if c :| SimpleCycle(ChildTable(g, g.nodes), c) {
      assert Found(cycles, c);
    }
    if cycles != [] {
      assert SimpleCycle(ChildTable(g, g.nodes), cycles[0]);
    }
  }

  lemma CycleIsLeftOver<T(!new)>(g: Graph<T>, c: seq<T>, i: nat)
    requires Valid(g) && SimpleCycle(ChildTable(g, g.nodes), c) && i < |c|
    ensures c[i] in BelowCycles(g)
  {
    RotateCycle(ChildTable(g, g.nodes), c, i);
    var d := Rotate(c, i);
    assert d[0] == c[i];
    ClosedWalkOf(g, d);
    assert IsWalk(g, [c[i]]) && [c[i]][0] == c[i];
    assert Reaches(g, c[i], c[i]);
  }

  /** The child table a failed sort leaves behind has the same cycles as the whole one. */
  lemma LeftoversKeepCycles<T(!new)>(g: Graph<T>, c: seq<T>)
    requires Valid(g)
    ensures SimpleCycle(ChildTable(g, BelowCycles(g)), c) <==> SimpleCycle(ChildTable(g, g.nodes), c)
  {
    var all, left := ChildTable(g, g.nodes), ChildTable(g, BelowCycles(g));
    if SimpleCycle(left, c) {
      forall i | 0 <= i < |c| - 1 ensures Step(all, c[i], c[i + 1]) {
        assert Step(left, c[i], c[i + 1]);
      }
    }
    if SimpleCycle(all, c) {
      CycleIsLeftOver(g, c, |c| - 1);
      forall i | 0 <= i < |c| - 1 ensures Step(left, c[i], c[i + 1]) {
        assert Step(all, c[i], c[i + 1]);
        CycleIsLeftOver(g, c, i);
      }
    }
  }

  /** Enumerating cycles from a CycleError's leftovers gives all cycles of the whole input. */
  lemma CyclesFromLeftovers<T(!new)>(pairs: seq<(T, T)>, r: SortOutcome<T>, cycles: seq<seq<T>>)
    requires SortsPairs(pairs, r) && r.CycleError?
    ensures EnumeratesCycles(r.children, cycles)
       <==> EnumeratesCycles(ChildTable(GraphOf(pairs), ElementsOf(pairs)), cycles)
  {
    var g := GraphOf(pairs);
    GraphOfValid(pairs);
    assert r.children == ChildTable(g, BelowCycles(g));
    hide SimpleCycle, Rotation, ChildTable, SortsPairs, GraphOf;
    forall c ensures SimpleCycle(r.children, c) <==> SimpleCycle(ChildTable(g, g.nodes), c) {
      LeftoversKeepCycles(g, c);
    }
  }
}
