/** What the two sorts promise together, for any pair list. */
module TopsortLaws {
  import opened Common
  import opened Graphs
  import opened Topsort

  /** On success every element of every pair is listed exactly once, and parents precede children. */
  lemma SuccessfulOrder<T(!new)>(pairs: seq<(T, T)>, answer: seq<T>)
    requires SortsPairs(pairs, Sorted(answer))
    ensures forall x :: multiset(answer)[x] == if x in ElementsOf(pairs) then 1 else 0
    ensures forall a, b :: (a, b) in pairs ==> Precedes(answer, a, b)
  {
    var g := GraphOf(pairs);
    GraphOfValid(pairs);
    assert Elements(answer) == ElementsOf(pairs);
    forall x ensures multiset(answer)[x] == if x in ElementsOf(pairs) then 1 else 0 {
      OnceEach(answer, x);
      assert x in answer <==> x in Elements(answer);
    }
    forall a, b | (a, b) in pairs ensures Precedes(answer, a, b) {
      assert b in ElementsOf(pairs);
      ParentPrecedes(g, answer, a, b);
    }
  }

  ghost predicate Precedes<T>(s: seq<T>, a: T, b: T) {
    exists i, j :: 0 <= i < j < |s| && s[i] == a && s[j] == b
  }

  lemma ParentPrecedes<T(!new)>(g: Graph<T>, order: seq<T>, a: T, b: T)
    requires ParentsFirst(g, order) && b in order && Edge(g, a, b)
    ensures Precedes(order, a, b)
  {
  }

  lemma {:induction false} OnceEach<T>(s: seq<T>, x: T)
    requires Distinct(s)
    ensures multiset(s)[x] == if x in s then 1 else 0
  {
    if s != [] {
      var n := |s| - 1;
      assert s == s[..n] + [s[n]];
      assert multiset(s) == multiset(s[..n]) + multiset{s[n]};
      OnceEach(s[..n], x);
    }
  }

  /** The positions of the pairs into c from the given set. */
  ghost function PairsInto<T>(pairs: seq<(T, T)>, c: T, from: set<T>): set<nat> {
    set i: nat | i < |pairs| && pairs[i].1 == c && pairs[i].0 in from
  }

  lemma OneMorePairInto<T>(pairs: seq<(T, T)>, c: T, from: set<T>)
    requires pairs != []
    ensures
      var n := |pairs| - 1;
      && n !in PairsInto(pairs[..n], c, from)
      && PairsInto(pairs, c, from)
         == PairsInto(pairs[..n], c, from) + if pairs[n].1 == c && pairs[n].0 in from then {n} else {}
  {
  }

  /** A leftover count is the number of pairs into the node from the given set. */
  lemma {:induction false} CountIsNumberOfPairs<T>(pairs: seq<(T, T)>, c: T, from: set<T>)
    ensures CountInto(pairs, c, from) == |PairsInto(pairs, c, from)|
  {
    if pairs == [] {
      assert PairsInto(pairs, c, from) == {};
    } else {
      OneMorePairInto(pairs, c, from);
      CountIsNumberOfPairs(pairs[..|pairs| - 1], c, from);
      hide PairsInto;
    }
  }

  // -------------------------------------------------- tables from a caller

  /** Where x is among the children of the given nodes. */
  ghost function KidsAt<T(!new)>(pairs: seq<(T, T)>, x: T, nodes: set<T>): set<(T, nat)> {
    set p, i: nat | p in nodes && i < |Kids(pairs, p)| && Kids(pairs, p)[i] == x :: (p, i)
  }

  lemma OneMoreKid<T(!new)>(pairs: seq<(T, T)>, x: T, nodes: set<T>)
    requires pairs != []
    ensures
      var front, last := pairs[..|pairs| - 1], pairs[|pairs| - 1];
      var place := (last.0, |Kids(front, last.0)|);
      && place !in KidsAt(front, x, nodes)
      && KidsAt(pairs, x, nodes)
         == KidsAt(front, x, nodes) + if last.0 in nodes && last.1 == x then {place} else {}
  {
  }

  lemma {:induction false} CountByKids<T(!new)>(pairs: seq<(T, T)>, x: T, nodes: set<T>)
    ensures CountInto(pairs, x, nodes) == |KidsAt(pairs, x, nodes)|
  {
    if pairs == [] {
      assert KidsAt(pairs, x, nodes) == {};
    } else {
      CountByKids(pairs[..|pairs| - 1], x, nodes);
      OneMoreKid(pairs, x, nodes);
      hide Kids, KidsAt;
    }
  }

  /** Where x is among the lists of children. */
  ghost function ListedAt<T(!new)>(children: map<T, seq<T>>, x: T): set<(T, nat)> {
    set p, i: nat | p in children && i < |children[p]| && children[p][i] == x :: (p, i)
  }

  /** Every parent and every child has a count, which is the number of times it is listed as a child. */
  ghost predicate Consistent<T(!new)>(numParents: map<T, int>, children: map<T, seq<T>>) {
    && ListsInside(children, numParents.Keys)
    && forall x :: x in numParents ==> numParents[x] == |ListedAt(children, x)|
  }

  ghost function Arrows<T>(p: T, kids: seq<T>): (r: seq<(T, T)>)
    ensures |r| == |kids| && forall i :: 0 <= i < |kids| ==> r[i] == (p, kids[i])
  {
    seq(|kids|, i requires 0 <= i < |kids| => (p, kids[i]))
  }

  lemma {:induction false} KidsOfArrows<T(!new)>(pairs: seq<(T, T)>, p: T, kids: seq<T>, q: T)
    ensures Kids(pairs + Arrows(p, kids), q) == Kids(pairs, q) + if q == p then kids else []
    decreases |kids|
  {
    if kids == [] {
      assert pairs + Arrows(p, kids) == pairs;
    } else {
      var n := |kids| - 1;
      KidsOfArrows(pairs, p, kids[..n], q);
      var all := pairs + Arrows(p, kids);
      assert all[..|all| - 1] == pairs + Arrows(p, kids[..n]) && all[|all| - 1] == (p, kids[n]);
      assert kids[..n] + [kids[n]] == kids;
    }
  }

  ghost predicate ListsInside<T(!new)>(children: map<T, seq<T>>, nodes: set<T>) {
    && children.Keys <= nodes
    && forall p, i :: p in children && 0 <= i < |children[p]| ==> children[p][i] in nodes
  }

  ghost predicate PairsInside<T>(pairs: seq<(T, T)>, nodes: set<T>) {
    forall i :: 0 <= i < |pairs| ==> pairs[i].0 in nodes && pairs[i].1 in nodes
  }

  lemma OneMoreList<T(!new)>(children: map<T, seq<T>>, nodes: set<T>, before: seq<(T, T)>, p: T)
    requires p in children && ListsInside(children, nodes) && PairsInside(before, nodes)
    requires forall q :: Kids(before, q) == ChildrenOf(children - {p}, q)
    ensures ListsInside(children - {p}, nodes) && PairsInside(before + Arrows(p, children[p]), nodes)
    ensures forall q :: Kids(before + Arrows(p, children[p]), q) == ChildrenOf(children, q)
  {
    hide Kids;
    forall q ensures Kids(before + Arrows(p, children[p]), q) == ChildrenOf(children, q) {
      KidsOfArrows(before, p, children[p], q);
      assert Kids(before, q) == ChildrenOf(children - {p}, q);
    }
  }

  lemma {:induction false} PairsOfLists<T(!new)>(children: map<T, seq<T>>, nodes: set<T>) returns (pairs: seq<(T, T)>)
    requires ListsInside(children, nodes)
    ensures PairsInside(pairs, nodes) && forall p :: Kids(pairs, p) == ChildrenOf(children, p)
    decreases |children|
  {
    if children == map[] {
      pairs := [];
    } else {
      var p :| p in children;
      hide *;
      var before := PairsOfLists(children - {p}, nodes);
      OneMoreList(children, nodes, before, p);
      pairs := before + Arrows(p, children[p]);
    }
  }

  lemma SamePlaces<T(!new)>(pairs: seq<(T, T)>, nodes: set<T>, children: map<T, seq<T>>, x: T)
    requires children.Keys <= nodes
    requires forall p :: p in nodes ==> Kids(pairs, p) == ChildrenOf(children, p)
    ensures KidsAt(pairs, x, nodes) == ListedAt(children, x)
  {
  }

  lemma GraphOfTables<T(!new)>(numParents: map<T, int>, children: map<T, seq<T>>) returns (g: Graph<T>)
    requires Consistent(numParents, children)
    ensures Valid(g) && Describes(g, numParents, children)
  {
    var nodes := numParents.Keys;
    var pairs := PairsOfLists(children, nodes);
    g := Graph(nodes, pairs);
    forall x | x in nodes ensures CountInto(g.pairs, x, nodes) == numParents[x] {
      CountByKids(g.pairs, x, nodes);
      SamePlaces(g.pairs, nodes, children, x);
    }
    hide Kids, CountInto, ListedAt;
  }

  lemma ListedChildren<T(!new)>(g: Graph<T>, numParents: map<T, int>, children: map<T, seq<T>>)
    requires Valid(g) && Describes(g, numParents, children)
    ensures ListsInside(children, numParents.Keys)
  {
    forall p, i | p in children && 0 <= i < |children[p]| ensures children[p][i] in numParents {
      KidsAreEdges(g.pairs, p, children[p][i]);
    }
  }

  lemma TablesOfGraph<T(!new)>(g: Graph<T>, numParents: map<T, int>, children: map<T, seq<T>>)
    requires Valid(g) && Describes(g, numParents, children)
    ensures Consistent(numParents, children)
  {
    ListedChildren(g, numParents, children);
    forall x | x in numParents ensures numParents[x] == |ListedAt(children, x)| {
      ListedCount(g, numParents, children, x);
    }
    hide Valid, Describes, ListsInside, ListedAt;
  }

  lemma ListedCount<T(!new)>(g: Graph<T>, numParents: map<T, int>, children: map<T, seq<T>>, x: T)
    requires Describes(g, numParents, children) && x in numParents
    ensures numParents[x] == |ListedAt(children, x)|
  {
    CountByKids(g.pairs, x, g.nodes);
    hide Kids, CountInto;
    SamePlaces(g.pairs, g.nodes, children, x);
  }

  /** The tables the level sort asks its callers for, the number of parents of every item and the lists
      of children, are exactly those that describe some graph. */
  lemma TablesOfAGraph<T(!new)>(numParents: map<T, int>, children: map<T, seq<T>>)
    ensures Consistent(numParents, children)
       <==> exists g: Graph<T> :: Valid(g) && Describes(g, numParents, children)
  {
    hide *;
    if Consistent(numParents, children) {
      var g := GraphOfTables(numParents, children);
    }
    if g: Graph<T> :| Valid(g) && Describes(g, numParents, children) {
      TablesOfGraph(g, numParents, children);
    }
  }

  // ------------------------------------------------- leftovers and parents

  lemma BelowCyclesStuck<T(!new)>(g: Graph<T>)
    requires Valid(g)
    ensures Stuck(g, BelowCycles(g))
  {
    forall x | x in BelowCycles(g) ensures HasParentIn(g, BelowCycles(g), x) {
      var c :| c in g.nodes && OnCycle(g, c) && Reaches(g, c, x);
      var w :| IsWalk(g, w) && w[0] == c && w[|w| - 1] == x;
      if |w| == 1 {
        w :| IsClosedWalk(g, w) && w[0] == c;
      }
      var p := w[|w| - 2];
      assert Edge(g, w[|w| - 2], w[|w| - 2 + 1]);
      SubWalk(g, w, 0, |w| - 1);
      assert w[0..|w| - 1][0] == c && w[0..|w| - 1][|w| - 2] == p;
      assert Reaches(g, c, p);
      assert p in BelowCycles(g) && Edge(g, p, x);
    }
  }

  /** Every leftover of a failed sort has a leftover parent, ... */
  lemma LeftoversHaveParents<T(!new)>(pairs: seq<(T, T)>, r: SortOutcome<T>, x: T)
    requires SortsPairs(pairs, r) && r.CycleError? && x in r.numParents
    ensures exists p :: p in r.numParents && (p, x) in pairs
    ensures r.numParents[x] > 0
  {
    var g := GraphOf(pairs);
    GraphOfValid(pairs);
    BelowCyclesStuck(g);
    assert x in BelowCycles(g);
    assert HasParentIn(g, BelowCycles(g), x);
    CountZero(pairs, x, BelowCycles(g));
  }

  lemma LoopAndTail(pairs: seq<(int, int)>)
    requires pairs == [(1, 1), (1, 2)]
    ensures HasCycle(GraphOf(pairs)) && 2 in BelowCycles(GraphOf(pairs)) && Kids(pairs, 2) == []
  {
    var g := GraphOf(pairs);
    assert pairs[0] == (1, 1) && pairs[1] == (1, 2);
    var w := [1, 1];
    assert Edge(g, w[0], w[1]) && IsClosedWalk(g, w) && w[0] == 1;
    assert OnCycle(g, 1) && HasCycle(g);
    var v := [1, 2];
    assert Edge(g, v[0], v[1]) && IsWalk(g, v) && v[|v| - 1] == 2;
    assert Reaches(g, 1, 2);
    KidsAreEdges(pairs, 2, 1);
    KidsAreEdges(pairs, 2, 2);
    assert pairs[..1] == [(1, 1)] && [(1, 1)][..0] == [];
  }

  /** ... but, against the comment in the source, not always a child, ... */
  lemma LeftoverWithoutChild(r: SortOutcome<int>)
    requires SortsPairs([(1, 1), (1, 2)], r)
    ensures r.CycleError? && 2 in r.numParents && 2 !in r.children
  {
    LoopAndTail([(1, 1), (1, 2)]);
    hide GraphOf, Kids, HasCycle, BelowCycles, ParentsFirst, Levelled, FirstInFirstOut, CountInto;
  }

  ghost predicate HasChild<T>(pairs: seq<(T, T)>, x: T) {
    exists i :: 0 <= i < |pairs| && pairs[i].0 == x
  }

  lemma KidsWhenParent<T(!new)>(pairs: seq<(T, T)>, x: T)
    ensures Kids(pairs, x) != [] <==> HasChild(pairs, x)
  {
  }

  /** Exactly when the comment holds: every leftover has a child, in the table that is left, if and
      only if no element without a child can be reached from a cycle of the pairs. */
  lemma LeftoversHaveChildrenExactlyWhen<T(!new)>(pairs: seq<(T, T)>, r: SortOutcome<T>)
    requires SortsPairs(pairs, r) && r.CycleError?
    ensures (forall x :: x in r.numParents ==> x in r.children)
       <==> forall c, x | c in ElementsOf(pairs) && OnCycle(GraphOf(pairs), c) && Reaches(GraphOf(pairs), c, x)
              && x in ElementsOf(pairs) :: HasChild(pairs, x)
  {
    var g := GraphOf(pairs);
    GraphOfValid(pairs);
    forall x ensures Kids(pairs, x) != [] <==> HasChild(pairs, x) { KidsWhenParent(pairs, x); }
    assert forall x :: x in r.numParents <==> x in BelowCycles(g);
    assert forall x :: x in r.children <==> x in BelowCycles(g) && Kids(pairs, x) != [];
    hide OnCycle, Reaches, SortsPairs, Kids, HasChild, GraphOf, ElementsOf;
  }

  // -------------------------------------------- the two sorts side by side

  /** The list is the levels one after the other, up to reordering inside each level. */
  ghost predicate BlockByBlock<T>(order: seq<T>, levels: seq<seq<T>>) {
    if levels == [] then order == []
    else
      var n := |levels[0]|;
      && n <= |order|
      && multiset(order[..n]) == multiset(levels[0])
      && BlockByBlock(order[n..], levels[1..])
  }

  /** levels[k] lists exactly the entries of order whose number is d + k. */
  ghost predicate Splits<T(!new)>(order: seq<T>, lv: seq<nat>, levels: seq<seq<T>>, d: nat) {
    && |lv| == |order| && Distinct(order)
    && (forall i, j :: 0 <= i < j < |lv| ==> lv[i] <= lv[j])
    && (forall i :: 0 <= i < |lv| ==> d <= lv[i] < d + |levels|)
    && (forall k :: 0 <= k < |levels| ==> Distinct(levels[k]))
    && (forall k, i :: 0 <= k < |levels| && 0 <= i < |order| ==> (order[i] in levels[k] <==> lv[i] == d + k))
    && (forall k, x :: 0 <= k < |levels| && x in levels[k] ==> x in order)
  }

  lemma EntriesNeedLevels<T(!new)>(order: seq<T>, lv: seq<nat>, levels: seq<seq<T>>, d: nat)
    requires Splits(order, lv, levels, d)
    ensures |order| > 0 ==> |levels| > 0
  {
    if |order| > 0 {
      assert d <= lv[0] < d + |levels|;
    }
  }

  lemma IndexInSplit<T(!new)>(order: seq<T>, lv: seq<nat>, levels: seq<seq<T>>, d: nat, k: nat, x: T) returns (i: nat)
    requires Splits(order, lv, levels, d) && k < |levels| && x in levels[k]
    ensures i < |order| && order[i] == x && lv[i] == d + k
  {
    assert x in order;
    i :| 0 <= i < |order| && order[i] == x;
  }

  lemma {:induction false} SplitsBlockByBlock<T(!new)>(order: seq<T>, lv: seq<nat>, levels: seq<seq<T>>, d: nat)
    requires Splits(order, lv, levels, d)
    ensures BlockByBlock(order, levels)
    decreases |levels|
  {
    if levels == [] {
      EntriesNeedLevels(order, lv, levels, d);
    } else {
      var n := FirstAbove(lv, d);
      SameMultiset(order[..n], levels[0]) by {
        forall x ensures x in order[..n] <==> x in levels[0] {
          if x in levels[0] {
            var i := IndexInSplit(order, lv, levels, d, 0, x);
            assert order[..n][i] == x;
          }
        }
      }
      assert |multiset(order[..n])| == n && |multiset(levels[0])| == |levels[0]|;
      var order', lv', levels' := order[n..], lv[n..], levels[1..];
      assert Splits(order', lv', levels', d + 1) by {
        forall k, x | 0 <= k < |levels'| && x in levels'[k] ensures x in order' {
          assert x in levels[k + 1];
          var i := IndexInSplit(order, lv, levels, d, k + 1, x);
          assert order'[i - n] == x;
        }
        forall k, i | 0 <= k < |levels'| && 0 <= i < |order'|
          ensures order'[i] in levels'[k] <==> lv'[i] == d + 1 + k
        {
          assert order'[i] == order[n + i] && levels'[k] == levels[k + 1];
        }
      }
      SplitsBlockByBlock(order', lv', levels', d + 1);
    }
  }

  /** Where a nondecreasing list of numbers from d leaves d. */
  lemma {:induction false} FirstAbove(lv: seq<nat>, d: nat) returns (n: nat)
    requires forall i, j :: 0 <= i < j < |lv| ==> lv[i] <= lv[j]
    requires forall i :: 0 <= i < |lv| ==> d <= lv[i]
    ensures n <= |lv| && forall i :: 0 <= i < |lv| ==> (i < n <==> lv[i] == d)
  {
    if lv == [] || lv[0] > d {
      n := 0;
    } else {
      var m := FirstAbove(lv[1..], d);
      n := m + 1;
      forall i | 0 <= i < |lv| ensures i < n <==> lv[i] == d {
        if i > 0 { assert lv[i] == lv[1..][i - 1]; }
      }
    }
  }

  lemma SameMultiset<T(!new)>(a: seq<T>, b: seq<T>)
    requires Distinct(a) && Distinct(b) && forall x :: x in a <==> x in b
    ensures multiset(a) == multiset(b)
  {
    forall x ensures multiset(a)[x] == multiset(b)[x] {
      OnceEach(a, x);
      OnceEach(b, x);
    }
  }

  /** Nodes below a cycle have chains of every length. */
  lemma BelowCycleHasChains<T(!new)>(g: Graph<T>, x: T, k: nat)
    requires Valid(g) && x in BelowCycles(g)
    ensures HasChain(g, x, k)
  {
    BelowCyclesStuck(g);
    var w := BackWalk(g, BelowCycles(g), x, k);
  }

  /** The first-in first-out sort lists the nodes level by level, on success and on failure alike. */
  lemma SortFollowsLevels<T(!new)>(pairs: seq<(T, T)>, r: SortOutcome<T>, levels: seq<seq<T>>)
    requires SortsPairs(pairs, r) && ListsLevels(GraphOf(pairs), levels)
    ensures BlockByBlock(r.answer, levels)
  {
    var g := GraphOf(pairs);
    GraphOfValid(pairs);
    var order := r.answer;
    var lv :| Levelled(g, order, lv);
    forall i | 0 <= i < |order| ensures order[i] in g.nodes && lv[i] < |levels| {
      assert order[i] in Elements(order);
      assert AtLevel(g, order[i], lv[i]);
    }
    forall k, i | 0 <= k < |levels| && 0 <= i < |order|
      ensures order[i] in levels[k] <==> lv[i] == k
    {
      assert AtLevel(g, order[i], lv[i]) && ListsLevel(g, levels[k], k);
      if AtLevel(g, order[i], k) {
        LevelUnique(g, order[i], k, lv[i]);
      }
    }
    forall k, x | 0 <= k < |levels| && x in levels[k] ensures x in order {
      assert ListsLevel(g, levels[k], k);
      assert AtLevel(g, x, k);
      if x in BelowCycles(g) {
        BelowCycleHasChains(g, x, k + 1);
        assert false;
      }
      assert x in Elements(order);
    }
    hide AtLevel, BelowCycles, ListsLevels;
    assert Splits(order, lv, levels, 0) by {
      forall k | 0 <= k < |levels| ensures Distinct(levels[k]) {
        assert ListsLevel(g, levels[k], k) by { LevelListed(g, levels, k); }
      }
    }
    SplitsBlockByBlock(order, lv, levels, 0);
  }

  lemma LevelListed<T(!new)>(g: Graph<T>, levels: seq<seq<T>>, k: nat)
    requires ListsLevels(g, levels) && k < |levels|
    ensures ListsLevel(g, levels[k], k)
  {
  }
}
