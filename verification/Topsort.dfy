/** The dependency sorts of bindings/python/topsort.py: a first-in first-out sort and a
    level-by-level sort over a list of (parent, child) pairs. */
module Topsort {
  import opened Common
  import opened Graphs

  // ------------------------------------------------ the tables, as values

  /** The children of p, one entry per pair, in pair order. */
  ghost function Kids<T>(pairs: seq<(T, T)>, p: T): seq<T> {
    if pairs == [] then []
    else
      var n := |pairs| - 1;
      Kids(pairs[..n], p) + if pairs[n].0 == p then [pairs[n].1] else []
  }

  /** The number of pairs that lead from the given set into c. */
  ghost function CountInto<T>(pairs: seq<(T, T)>, c: T, from: set<T>): nat {
    if pairs == [] then 0
    else
      var n := |pairs| - 1;
      CountInto(pairs[..n], c, from) + if pairs[n].1 == c && pairs[n].0 in from then 1 else 0
  }

  ghost function ElementsOf<T>(pairs: seq<(T, T)>): set<T> {
    (set i | 0 <= i < |pairs| :: pairs[i].0) + (set i | 0 <= i < |pairs| :: pairs[i].1)
  }

  ghost function GraphOf<T>(pairs: seq<(T, T)>): Graph<T> {
    Graph(ElementsOf(pairs), pairs)
  }

  /** What num_parents holds while only `alive` is left. */
  ghost function CountTable<T>(g: Graph<T>, alive: set<T>): map<T, int> {
    map x | x in alive :: CountInto(g.pairs, x, alive)
  }

  /** What children holds while only `alive` is left. */
  ghost function ChildTable<T>(g: Graph<T>, alive: set<T>): map<T, seq<T>> {
    map p | p in alive && Kids(g.pairs, p) != [] :: Kids(g.pairs, p)
  }

  ghost function Restrict<T>(children: map<T, seq<T>>, alive: set<T>): map<T, seq<T>> {
    map p | p in children && p in alive :: children[p]
  }

  /** The children of each node are those listed for it. */
  ghost predicate ListsKids<T(!new)>(g: Graph<T>, children: map<T, seq<T>>) {
    forall p :: p in g.nodes ==> Kids(g.pairs, p) == ChildrenOf(children, p)
  }

  /** Tables that describe g; a node without children may have an empty entry or none. */
  ghost predicate Describes<T(!new)>(g: Graph<T>, numParents: map<T, int>, children: map<T, seq<T>>) {
    && numParents == CountTable(g, g.nodes)
    && children.Keys <= g.nodes
    && ListsKids(g, children)
  }

  lemma DropChildEntry<T>(g: Graph<T>, alive: set<T>, p: T)
    requires p in alive
    ensures ChildTable(g, alive - {p}) == ChildTable(g, alive) - {p}
    ensures Kids(g.pairs, p) == if p in ChildTable(g, alive) then ChildTable(g, alive)[p] else []
  {
  }

  // -------------------------------------------------------- counting lemmas

  lemma {:induction false} KidsAreEdges<T>(pairs: seq<(T, T)>, p: T, c: T)
    ensures c in Kids(pairs, p) <==> (p, c) in pairs
  {
    if pairs != [] {
      var n := |pairs| - 1;
      assert pairs == pairs[..n] + [pairs[n]];
      KidsAreEdges(pairs[..n], p, c);
    }
  }

  lemma {:induction false} CountZero<T>(pairs: seq<(T, T)>, c: T, from: set<T>)
    ensures CountInto(pairs, c, from) == 0 <==> forall p :: p in from ==> (p, c) !in pairs
  {
    if pairs != [] {
      var n := |pairs| - 1;
      assert pairs == pairs[..n] + [pairs[n]];
      CountZero(pairs[..n], c, from);
    }
  }

  /** Removing p lowers the count of c by the number of times c is a child of p. */
  lemma {:induction false} CountWithout<T>(pairs: seq<(T, T)>, c: T, from: set<T>, p: T)
    requires p in from
    ensures CountInto(pairs, c, from) == CountInto(pairs, c, from - {p}) + multiset(Kids(pairs, p))[c]
  {
    if pairs != [] {
      var n := |pairs| - 1;
      CountWithout(pairs[..n], c, from, p);
    }
  }

  // ------------------------------------------------- building the two tables

  /** The entries of x after the given pairs; `all` is the final key set. */
  ghost predicate BuiltAt<T>(pairs: seq<(T, T)>, all: set<T>, np: map<T, int>, ch: map<T, seq<T>>, x: T) {
    && CountInto(pairs, x, all) == (if x in np then np[x] else 0)
    && Kids(pairs, x) == (if x in ch then ch[x] else [])
    && (x in ch ==> x in np && ch[x] != [])
  }

  ghost predicate Built<T(!new)>(pairs: seq<(T, T)>, all: set<T>, np: map<T, int>, ch: map<T, seq<T>>) {
    && np.Keys == ElementsOf(pairs)
    && forall x :: BuiltAt(pairs, all, np, ch, x)
  }

  lemma BuiltStep<T(!new)>(pairs: seq<(T, T)>, parent: T, child: T, all: set<T>,
                           np: map<T, int>, ch: map<T, seq<T>>, np': map<T, int>, ch': map<T, seq<T>>)
    requires Built(pairs, all, np, ch) && parent in all
    requires np'.Keys == np.Keys + {parent, child}
    requires forall x :: x in np' ==>
      np'[x] == (if x in np then np[x] else 0) + if x == child then 1 else 0
    requires ch' == ch[parent := (if parent in ch then ch[parent] else []) + [child]]
    ensures Built(pairs + [(parent, child)], all, np', ch')
  {
    MoreElements(pairs, parent, child);
    hide ElementsOf, CountInto, Kids;
    forall x ensures BuiltAt(pairs + [(parent, child)], all, np', ch', x) {
      assert BuiltAt(pairs, all, np, ch, x);
      MoreCount(pairs, parent, child, x, all);
      MoreKids(pairs, parent, child, x);
    }
  }

  lemma MoreElements<T>(pairs: seq<(T, T)>, parent: T, child: T)
    ensures ElementsOf(pairs + [(parent, child)]) == ElementsOf(pairs) + {parent, child}
  {
    var more := pairs + [(parent, child)];
    assert forall i :: 0 <= i < |pairs| ==> more[i] == pairs[i];
    assert more[|pairs|] == (parent, child);
  }

  lemma MoreCount<T>(pairs: seq<(T, T)>, parent: T, child: T, x: T, all: set<T>)
    ensures CountInto(pairs + [(parent, child)], x, all)
         == CountInto(pairs, x, all) + if x == child && parent in all then 1 else 0
  {
  }

  lemma MoreKids<T>(pairs: seq<(T, T)>, parent: T, child: T, p: T)
    ensures Kids(pairs + [(parent, child)], p) == Kids(pairs, p) + if p == parent then [child] else []
  {
  }

  lemma BuiltAll<T(!new)>(pairs: seq<(T, T)>, np: map<T, int>, ch: map<T, seq<T>>)
    requires Built(pairs, ElementsOf(pairs), np, ch)
    ensures np == CountTable(GraphOf(pairs), ElementsOf(pairs))
    ensures ch == ChildTable(GraphOf(pairs), ElementsOf(pairs))
  {
    hide CountInto, Kids, ElementsOf;
    var all := ElementsOf(pairs);
    forall x | x in np ensures np[x] == CountInto(pairs, x, all) {
      assert BuiltAt(pairs, all, np, ch, x);
    }
    forall p ensures p in ch <==> p in all && Kids(pairs, p) != []
      ensures p in ch ==> ch[p] == Kids(pairs, p)
    {
      assert BuiltAt(pairs, all, np, ch, p);
    }
  }

  method BuildTables<T(==,!new)>(pairs: seq<(T, T)>) returns (numParents: map<T, int>, children: map<T, seq<T>>)
    ensures numParents == CountTable(GraphOf(pairs), ElementsOf(pairs))
    ensures children == ChildTable(GraphOf(pairs), ElementsOf(pairs))
  {
    numParents, children := map[], map[];
    ghost var all := ElementsOf(pairs);
    for i := 0 to |pairs|
      invariant Built(pairs[..i], all, numParents, children)
    {
      ghost var np, ch := numParents, children;
      var (parent, child) := pairs[i];
      if parent !in numParents {
        numParents := numParents[parent := 0];
      }
      if child !in numParents {
        numParents := numParents[child := 0];
      }
      numParents := numParents[child := numParents[child] + 1];
      if parent !in children {
        children := children[parent := []];
      }
      children := children[parent := children[parent] + [child]];
      BuiltStep(pairs[..i], parent, child, all, np, ch, numParents, children);
      assert pairs[..i + 1] == pairs[..i] + [(parent, child)];
    }
    assert pairs[..|pairs|] == pairs;
    BuiltAll(pairs, numParents, children);
  }

  ghost predicate ListsZeros<T(!new)>(numParents: map<T, int>, zeros: seq<T>) {
    && Distinct(zeros)
    && forall x :: x in zeros <==> x in numParents && numParents[x] == 0
  }

  /** The keys whose count is zero, in whatever order the dictionary lists its keys. */
  method KeysAtZero<T(==,!new)>(numParents: map<T, int>) returns (zeros: seq<T>)
    ensures ListsZeros(numParents, zeros)
  {
    zeros := [];
    var rest := numParents.Keys;
    while rest != {}
      invariant rest <= numParents.Keys
      invariant Distinct(zeros)
      invariant forall x :: x in zeros <==> x in numParents && numParents[x] == 0 && x !in rest
      decreases rest
    {
      var x :| x in rest;
      rest := rest - {x};
      if numParents[x] == 0 {
        zeros := zeros + [x];
      }
    }
  }

  // ------------------------------------------------ one removal at a time

  /** The bookkeeping both sorts keep: `order` has been removed, the tables describe the rest. */
  ghost predicate Removed<T(!new)>(g: Graph<T>, order: seq<T>, numParents: map<T, int>) {
    && ParentsFirst(g, order)
    && numParents == CountTable(g, g.nodes - Elements(order))
  }

  /** While the children of p are being counted down, kids is what is still to come. */
  ghost predicate CountingDown<T>(g: Graph<T>, alive: set<T>, kids: seq<T>, numParents: map<T, int>) {
    && numParents.Keys == alive
    && (forall x :: x in alive ==> numParents[x] == CountInto(g.pairs, x, alive) + multiset(kids)[x])
    && (forall c :: c in kids ==> c in alive)
  }

  lemma ParentsListed<T(!new)>(g: Graph<T>, order: seq<T>, p: T, c: T)
    requires ParentsFirst(g, order) && c in order && Edge(g, p, c)
    ensures p in order
  {
  }

  /** A node with count zero can go next, and its children are still keys. */
  lemma RemoveNext<T(!new)>(g: Graph<T>, order: seq<T>, numParents: map<T, int>, p: T)
    requires Valid(g) && Removed(g, order, numParents)
    requires p in numParents && numParents[p] == 0
    ensures ParentsFirst(g, order + [p])
    ensures g.nodes - Elements(order + [p]) == g.nodes - Elements(order) - {p}
    ensures CountingDown(g, g.nodes - Elements(order + [p]), Kids(g.pairs, p), numParents - {p})
  {
    var alive := g.nodes - Elements(order);
    var next := order + [p];
    CountZero(g.pairs, p, alive);
    forall k, q | 0 <= k < |next| && Edge(g, q, next[k]) ensures q in next[..k] {
      if k < |order| {
        assert q in order[..k];
        assert next[..k] == order[..k];
      } else {
        assert q in g.nodes;
        assert next[..k] == order;
      }
    }
    assert Elements(next) == Elements(order) + {p};
    forall c | c in Kids(g.pairs, p) ensures c in alive - {p} {
      KidsAreEdges(g.pairs, p, c);
      if c in order {
        ParentsListed(g, order, p, c);
        assert false;
      }
    }
    forall x | x in alive - {p}
      ensures numParents[x] == CountInto(g.pairs, x, alive - {p}) + multiset(Kids(g.pairs, p))[x]
    {
      CountWithout(g.pairs, x, alive, p);
    }
  }

  lemma CountStep<T>(g: Graph<T>, alive: set<T>, kids: seq<T>, j: nat, numParents: map<T, int>)
    requires j < |kids| && CountingDown(g, alive, kids[j..], numParents)
    ensures numParents[kids[j]] > 0
    ensures CountingDown(g, alive, kids[j + 1..], numParents[kids[j] := numParents[kids[j]] - 1])
  {
    assert kids[j..] == [kids[j]] + kids[j + 1..];
  }

  lemma CountDone<T>(g: Graph<T>, alive: set<T>, numParents: map<T, int>)
    requires CountingDown(g, alive, [], numParents)
    ensures numParents == CountTable(g, alive)
  {
  }

  // ---------------------------------------------------------------- levels

  /** lv[k] is the level of order[k], and levels never go down along the list. */
  ghost predicate Levelled<T(!new)>(g: Graph<T>, order: seq<T>, lv: seq<nat>) {
    && |lv| == |order|
    && (forall k :: 0 <= k < |order| ==> AtLevel(g, order[k], lv[k]))
    && (forall j, k :: 0 <= j < k < |order| ==> lv[j] <= lv[k])
  }

  /** A node is one level below the deepest of its parents. */
  lemma LevelBelow<T(!new)>(g: Graph<T>, x: T, p: T, k: nat)
    requires Valid(g) && Edge(g, p, x) && AtLevel(g, p, k)
    requires forall q :: Edge(g, q, x) ==> !HasChain(g, q, k + 1)
    ensures AtLevel(g, x, k + 1)
  {
    ChainStep(g, p, x, k);
    if HasChain(g, x, k + 2) {
      var q := ChainParent(g, x, k + 1);
      assert false;
    }
  }

  /** The node released by the removal of order[i] is exactly one level below it. */
  lemma ReleasedLevel<T(!new)>(g: Graph<T>, order: seq<T>, lv: seq<nat>, i: nat, x: T)
    requires Valid(g) && i < |order| && Levelled(g, order, lv)
    requires Edge(g, order[i], x)
    requires forall q :: Edge(g, q, x) ==> q in order[..i + 1]
    ensures AtLevel(g, x, lv[i] + 1)
  {
    forall q | Edge(g, q, x) ensures !HasChain(g, q, lv[i] + 1) {
      var k :| 0 <= k < i + 1 && order[..i + 1][k] == q;
      if HasChain(g, q, lv[i] + 1) {
        ChainShorter(g, q, lv[i] + 1, lv[k] + 1);
        assert false;
      }
    }
    LevelBelow(g, x, order[i], lv[i]);
  }

  lemma RootLevel<T(!new)>(g: Graph<T>, x: T)
    requires Valid(g) && x in g.nodes
    requires CountInto(g.pairs, x, g.nodes) == 0
    ensures AtLevel(g, x, 0)
  {
    ChainZero(g, x);
    CountZero(g.pairs, x, g.nodes);
    if HasChain(g, x, 1) {
      assert false;
    }
  }

  // ------------------------------------------------------------- the sort

  datatype SortOutcome<T> =
    | Sorted(answer: seq<T>)
    | CycleError(answer: seq<T>, numParents: map<T, int>, children: map<T, seq<T>>)

  /** The last place of x in the list is j. */
  ghost predicate LastAt<T>(list: seq<T>, x: T, j: nat) {
    j < |list| && list[j] == x && x !in list[j + 1..]
  }

  /** The children added stand in the order of their last places in the list of children. */
  ghost predicate InTurn<T>(kids: seq<T>, added: seq<T>, at: seq<nat>) {
    && |at| == |added|
    && (forall q :: 0 <= q < |at| ==> LastAt(kids, added[q], at[q]))
    && (forall p, q :: 0 <= p < q < |at| ==> at[p] < at[q])
  }

  /** A turn (k, j) is that of the j-th child of the k-th node listed. */
  ghost predicate Earlier(a: (nat, nat), b: (nat, nat)) {
    a.0 < b.0 || (a.0 == b.0 && a.1 < b.1)
  }

  /** The turn is that of the last place of x among the children of the parent listed last. */
  ghost predicate ReleasedBy<T(!new)>(g: Graph<T>, answer: seq<T>, x: T, turn: (nat, nat)) {
    && turn.0 < |answer| && LastAt(Kids(g.pairs, answer[turn.0]), x, turn.1)
    && forall p :: Edge(g, p, x) ==> p in answer[..turn.0 + 1]
  }

  ghost predicate NoParent<T(!new)>(g: Graph<T>, x: T) {
    forall p :: !Edge(g, p, x)
  }

  /** Nodes without parents come first, and every other node in the order of its turn. */
  ghost predicate FirstInFirstOut<T(!new)>(g: Graph<T>, answer: seq<T>, turns: seq<(nat, nat)>) {
    && |turns| <= |answer|
    && (forall q :: 0 <= q < |answer| - |turns| ==> NoParent(g, answer[q]))
    && (forall q :: 0 <= q < |turns| ==> ReleasedBy(g, answer, answer[|answer| - |turns| + q], turns[q]))
    && (forall p, q :: 0 <= p < q < |turns| ==> Earlier(turns[p], turns[q]))
  }

  /** The answer lists, once each and parents first, exactly the nodes not below a cycle, level by
      level and first in, first out. The sort succeeds exactly when there is no cycle; otherwise the two tables are left
      describing the part below the cycles. */
  ghost predicate SortsPairs<T(!new)>(pairs: seq<(T, T)>, r: SortOutcome<T>) {
    var g := GraphOf(pairs);
    && ParentsFirst(g, r.answer)
    && Elements(r.answer) == g.nodes - BelowCycles(g)
    && (exists lv :: Levelled(g, r.answer, lv))
    && (exists turns :: FirstInFirstOut(g, r.answer, turns))
    && (r.CycleError? <==> HasCycle(g))
    && (r.CycleError? ==>
          && r.numParents == CountTable(g, BelowCycles(g))
          && r.children == ChildTable(g, BelowCycles(g)))
  }

  lemma GraphOfValid<T>(pairs: seq<(T, T)>)
    ensures Valid(GraphOf(pairs))
    ensures GraphOf(pairs).nodes == ElementsOf(pairs) && GraphOf(pairs).pairs == pairs
  {
  }

  /** With no count at zero, every node left has a parent left. */
  lemma NothingFree<T(!new)>(g: Graph<T>, alive: set<T>, numParents: map<T, int>)
    requires numParents == CountTable(g, alive)
    requires forall x :: x in numParents ==> numParents[x] != 0
    ensures Stuck(g, alive)
    ensures numParents != map[] <==> alive != {}
  {
    forall x | x in alive ensures HasParentIn(g, alive, x) {
      CountZero(g.pairs, x, alive);
      assert x in numParents;
    }
    assert numParents.Keys == alive;
  }

  /** Once no node left has count zero, what is left is what lies on or below cycles. */
  lemma QueueEmpty<T(!new)>(g: Graph<T>, order: seq<T>, numParents: map<T, int>)
    requires Valid(g) && Removed(g, order, numParents)
    requires forall x :: x in numParents ==> numParents[x] != 0
    ensures g.nodes - Elements(order) == BelowCycles(g)
    ensures Elements(order) == g.nodes - BelowCycles(g)
    ensures numParents == CountTable(g, BelowCycles(g))
    ensures numParents != map[] <==> HasCycle(g)
  {
    assert Elements(order) <= g.nodes;
    hide ParentsFirst, CountTable, Stuck, BelowCycles, HasCycle, Elements;
    NothingFree(g, g.nodes - Elements(order), numParents);
    StuckIsBelowCycles(g, order, g.nodes - Elements(order));
  }

  /** A child whose count has just reached zero has all its parents in the removed part. */
  lemma ReleasedParents<T(!new)>(g: Graph<T>, order: seq<T>, x: T, rest: seq<T>, numParents: map<T, int>)
    requires Valid(g)
    requires CountingDown(g, g.nodes - Elements(order), rest, numParents)
    requires x in numParents && numParents[x] == 0
    ensures forall q :: Edge(g, q, x) ==> q in order
  {
    CountZero(g.pairs, x, g.nodes - Elements(order));
    forall q | Edge(g, q, x) ensures q in order {
      assert q in g.nodes;
    }
  }

  /** answer[i..] is the queue: the nodes left with count zero. */
  ghost predicate Queue<T(!new)>(g: Graph<T>, answer: seq<T>, i: nat, numParents: map<T, int>, lv: seq<nat>)
    requires i <= |answer|
  {
    && Distinct(answer)
    && Levelled(g, answer, lv)
    && forall x :: x in answer[i..] <==> x in numParents && numParents[x] == 0
  }

  /** No listed node is more than one level below order[i]. */
  ghost predicate Near(lv: seq<nat>, i: nat)
    requires i < |lv|
  {
    forall k :: 0 <= k < |lv| ==> lv[k] <= lv[i] + 1
  }

  lemma Queued<T(!new)>(g: Graph<T>, answer: seq<T>, i: nat, child: T, numParents: map<T, int>, lv: seq<nat>,
                        rest: seq<T>)
    requires Valid(g) && i < |answer| && child in numParents && numParents[child] == 1
    requires Queue(g, answer, i + 1, numParents, lv) && Near(lv, i)
    requires Edge(g, answer[i], child)
    requires CountingDown(g, g.nodes - Elements(answer[..i + 1]), rest, numParents[child := 0])
    ensures Queue(g, answer + [child], i + 1, numParents[child := 0], lv + [lv[i] + 1])
    ensures Near(lv + [lv[i] + 1], i)
  {
    hide Edge, AtLevel, CountInto;
    var np := numParents[child := 0];
    ReleasedParents(g, answer[..i + 1], child, rest, np);
    ReleasedLevel(g, answer, lv, i, child);
    assert child in np && child !in answer[..i + 1] && child !in answer[i + 1..];
    assert answer == answer[..i + 1] + answer[i + 1..];
    assert (answer + [child])[i + 1..] == answer[i + 1..] + [child];
  }

  lemma EdgeIs<T>(g: Graph<T>, a: T, b: T)
    ensures Edge(g, a, b) <==> (a, b) in g.pairs
  {
  }

  /** All children of answer[i] counted down: the tables describe what is left without it. */
  lemma EndParent<T(!new)>(g: Graph<T>, answer: seq<T>, i: nat, numParents: map<T, int>, lv: seq<nat>)
    requires i < |answer| == |lv| && ParentsFirst(g, answer[..i + 1])
    requires numParents == CountTable(g, g.nodes - Elements(answer[..i + 1]))
    requires Queue(g, answer, i + 1, numParents, lv) && Near(lv, i)
    ensures Removed(g, answer[..i + 1], numParents)
    ensures i + 1 < |answer| ==> Near(lv, i + 1)
  {
  }

  lemma SortEnds<T(!new)>(pairs: seq<(T, T)>, answer: seq<T>, numParents: map<T, int>, children: map<T, seq<T>>,
                          lv: seq<nat>, turns: seq<(nat, nat)>)
    requires Removed(GraphOf(pairs), answer, numParents) && FirstInFirstOut(GraphOf(pairs), answer, turns)
    requires Queue(GraphOf(pairs), answer, |answer|, numParents, lv)
    requires children == ChildTable(GraphOf(pairs), GraphOf(pairs).nodes - Elements(answer))
    ensures SortsPairs(pairs, if numParents != map[] then CycleError(answer, numParents, children) else Sorted(answer))
  {
    var g := GraphOf(pairs);
    GraphOfValid(pairs);
    hide ParentsFirst, Levelled, FirstInFirstOut, BelowCycles, HasCycle, CountTable, ChildTable, Elements;
    assert forall x :: x in numParents ==> numParents[x] != 0 by {
      assert answer[|answer|..] == [];
    }
    QueueEmpty(g, answer, numParents);
  }

  lemma StartQueue<T(!new)>(g: Graph<T>, numParents: map<T, int>, zeros: seq<T>) returns (lv: seq<nat>)
    requires Valid(g) && numParents == CountTable(g, g.nodes) && ListsZeros(numParents, zeros)
    ensures Removed(g, zeros[..0], numParents)
    ensures g.nodes - Elements(zeros[..0]) == g.nodes
    ensures Queue(g, zeros, 0, numParents, lv)
    ensures |lv| == |zeros| && (|zeros| > 0 ==> Near(lv, 0))
    ensures FirstInFirstOut(g, zeros, [])
  {
    lv := seq(|zeros|, k => 0);
    assert Elements(zeros[..0]) == {} && g.nodes - {} == g.nodes;
    forall k | 0 <= k < |zeros| ensures AtLevel(g, zeros[k], 0) && NoParent(g, zeros[k]) {
      assert zeros[k] in zeros;
      RootLevel(g, zeros[k]);
      CountZero(g.pairs, zeros[k], g.nodes);
    }
  }

  lemma StartParent<T(!new)>(g: Graph<T>, answer: seq<T>, i: nat, numParents: map<T, int>, lv: seq<nat>)
    requires Valid(g) && i < |answer|
    requires Removed(g, answer[..i], numParents) && Queue(g, answer, i, numParents, lv)
    ensures answer[i] in numParents && answer[i] in g.nodes - Elements(answer[..i])
    ensures g.nodes - Elements(answer[..i + 1]) == g.nodes - Elements(answer[..i]) - {answer[i]}
    ensures ParentsFirst(g, answer[..i + 1])
    ensures CountingDown(g, g.nodes - Elements(answer[..i + 1]), Kids(g.pairs, answer[i]), numParents - {answer[i]})
    ensures Queue(g, answer, i + 1, numParents - {answer[i]}, lv)
  {
    hide ParentsFirst, Edge, AtLevel;
    assert answer[i..] == [answer[i]] + answer[i + 1..];
    assert answer[..i] + [answer[i]] == answer[..i + 1];
    RemoveNext(g, answer[..i], numParents, answer[i]);
  }

  lemma CountKid<T(!new)>(g: Graph<T>, answer: seq<T>, i: nat, kids: seq<T>, j: nat, numParents: map<T, int>,
                          lv: seq<nat>)
    requires Valid(g) && i < |answer| && kids == Kids(g.pairs, answer[i]) && j < |kids|
    requires CountingDown(g, g.nodes - Elements(answer[..i + 1]), kids[j..], numParents)
    requires |lv| == |answer| && Queue(g, answer, i + 1, numParents, lv) && Near(lv, i)
    ensures kids[j] in numParents && numParents[kids[j]] > 0
    ensures CountingDown(g, g.nodes - Elements(answer[..i + 1]), kids[j + 1..],
                         numParents[kids[j] := numParents[kids[j]] - 1])
    ensures numParents[kids[j]] > 1 ==> Queue(g, answer, i + 1, numParents[kids[j] := numParents[kids[j]] - 1], lv)
    ensures numParents[kids[j]] == 1 ==>
      && LastAt(kids, kids[j], j)
      && Queue(g, answer + [kids[j]], i + 1, numParents[kids[j] := 0], lv + [lv[i] + 1])
      && Near(lv + [lv[i] + 1], i)
  {
    hide Edge, AtLevel, CountInto;
    KidsAreEdges(g.pairs, answer[i], kids[j]);
    assert Edge(g, answer[i], kids[j]) by { EdgeIs(g, answer[i], kids[j]); }
    CountStep(g, g.nodes - Elements(answer[..i + 1]), kids, j, numParents);
    if numParents[kids[j]] == 1 {
      assert kids[j..] == [kids[j]] + kids[j + 1..];
      Queued(g, answer, i, kids[j], numParents, lv, kids[j + 1..]);
    }
  }

  lemma NoneAdded<T>(kids: seq<T>, answer: seq<T>)
    ensures answer[|answer|..] == [] && InTurn(kids, [], [])
  {
  }

  lemma AddedInTurn<T>(kids: seq<T>, added: seq<T>, at: seq<nat>, j: nat)
    requires InTurn(kids, added, at) && j < |kids| && LastAt(kids, kids[j], j)
    requires forall q :: 0 <= q < |at| ==> at[q] < j
    ensures InTurn(kids, added + [kids[j]], at + [j])
  {
  }

  /** Take answer[i] off the counts of its children; a child that reaches zero joins the queue, in the
      order of the last places of such children. */
  method KnockDown<T(==,!new)>(ghost g: Graph<T>, i: nat, kids: seq<T>, numParents: map<T, int>, answer: seq<T>,
                               ghost lv: seq<nat>)
    returns (np: map<T, int>, queue: seq<T>, ghost levels: seq<nat>, ghost at: seq<nat>)
    requires Valid(g) && i < |answer| == |lv| && kids == Kids(g.pairs, answer[i])
    requires CountingDown(g, g.nodes - Elements(answer[..i + 1]), kids, numParents)
    requires Queue(g, answer, i + 1, numParents, lv) && Near(lv, i)
    ensures |levels| == |queue| >= |answer| && queue[..|answer|] == answer
    ensures np == CountTable(g, g.nodes - Elements(answer[..i + 1]))
    ensures Queue(g, queue, i + 1, np, levels) && Near(levels, i)
    ensures InTurn(kids, queue[|answer|..], at)
  {
    hide *;
    np, queue, levels, at := numParents, answer, lv, [];
    NoneAdded(kids, answer);
    assert kids[0..] == kids;
    ghost var alive := g.nodes - Elements(answer[..i + 1]);
    for j := 0 to |kids|
      invariant |levels| == |queue| >= |answer| && queue[..|answer|] == answer
      invariant CountingDown(g, alive, kids[j..], np)
      invariant Queue(g, queue, i + 1, np, levels) && Near(levels, i)
      invariant InTurn(kids, queue[|answer|..], at) && forall q :: 0 <= q < |at| ==> at[q] < j
    {
      var child := kids[j];
      assert queue[..i + 1] == answer[..i + 1] && queue[i] == answer[i];
      CountKid(g, queue, i, kids, j, np, levels);
      np := np[child := np[child] - 1];
      if np[child] == 0 {
        AddedInTurn(kids, queue[|answer|..], at, j);
        assert (queue + [child])[|answer|..] == queue[|answer|..] + [child];
        queue, levels, at := queue + [child], levels + [levels[i] + 1], at + [j];
      }
    }
    assert kids[|kids|..] == [];
    CountDone(g, alive, np);
  }

  /** The first i listed have been taken, and the tables describe the rest. */
  ghost predicate InStep<T(!new)>(g: Graph<T>, answer: seq<T>, i: nat, numParents: map<T, int>,
                                  children: map<T, seq<T>>, lv: seq<nat>, turns: seq<(nat, nat)>)
    requires i <= |answer|
  {
    && |lv| == |answer|
    && Removed(g, answer[..i], numParents)
    && children == ChildTable(g, g.nodes - Elements(answer[..i]))
    && Queue(g, answer, i, numParents, lv)
    && (i < |answer| ==> Near(lv, i))
    && FirstInFirstOut(g, answer, turns) && Before(turns, i)
  }

  /** All these turns come before those of the i-th node listed. */
  ghost predicate Before(turns: seq<(nat, nat)>, i: nat) {
    forall q :: 0 <= q < |turns| ==> turns[q].0 < i
  }

  lemma LaterStill(turns: seq<(nat, nat)>, i: nat)
    requires Before(turns, i)
    ensures Before(turns, i + 1)
  {
  }

  /** The children of answer[i] that were added, each with its turn. */
  lemma TurnsMore<T(!new)>(g: Graph<T>, answer: seq<T>, added: seq<T>, i: nat, turns: seq<(nat, nat)>, at: seq<nat>)
    returns (more: seq<(nat, nat)>)
    requires i < |answer| && FirstInFirstOut(g, answer, turns) && Before(turns, i)
    requires InTurn(Kids(g.pairs, answer[i]), added, at)
    requires forall q, p :: 0 <= q < |added| && Edge(g, p, added[q]) ==> p in answer[..i + 1]
    ensures FirstInFirstOut(g, answer + added, more) && Before(more, i + 1)
  {
    more := turns + seq(|at|, q requires 0 <= q < |at| => (i, at[q]));
    var all, r := answer + added, |answer| - |turns|;
    hide Kids, Edge, LastAt;
    forall q | 0 <= q < |more| ensures ReleasedBy(g, all, all[r + q], more[q]) {
      assert all[more[q].0] == answer[more[q].0] && all[..more[q].0 + 1] == answer[..more[q].0 + 1];
      if q < |turns| {
        assert ReleasedBy(g, answer, answer[r + q], turns[q]);
      } else {
        assert all[r + q] == added[q - |turns|];
      }
    }
  }

  /** Whatever is queued with the first i + 1 taken has all its parents among them. */
  lemma QueuedParents<T(!new)>(g: Graph<T>, queue: seq<T>, i: nat, n: nat, numParents: map<T, int>, lv: seq<nat>)
    requires Valid(g) && i < n <= |queue| && numParents == CountTable(g, g.nodes - Elements(queue[..i + 1]))
    requires Queue(g, queue, i + 1, numParents, lv)
    ensures forall q, p :: 0 <= q < |queue[n..]| && Edge(g, p, queue[n..][q]) ==> p in queue[..i + 1]
  {
    hide Levelled, CountInto;
    forall q, p | 0 <= q < |queue[n..]| && Edge(g, p, queue[n..][q]) ensures p in queue[..i + 1] {
      var x := queue[n..][q];
      assert x == queue[i + 1..][n - i - 1 + q] && x in numParents && numParents[x] == 0;
      CountZero(g.pairs, x, g.nodes - Elements(queue[..i + 1]));
      assert p in g.nodes && (p, x) in g.pairs;
    }
  }

  lemma FirstStep<T(!new)>(g: Graph<T>, answer: seq<T>, numParents: map<T, int>, children: map<T, seq<T>>, lv: seq<nat>)
    requires FirstInFirstOut(g, answer, [])
    requires Removed(g, answer[..0], numParents) && g.nodes - Elements(answer[..0]) == g.nodes
    requires Queue(g, answer, 0, numParents, lv) && |lv| == |answer| && (|answer| > 0 ==> Near(lv, 0))
    requires children == ChildTable(g, g.nodes)
    ensures InStep(g, answer, 0, numParents, children, lv, [])
  {
  }

  lemma StepsDone<T(!new)>(g: Graph<T>, answer: seq<T>, numParents: map<T, int>, children: map<T, seq<T>>, lv: seq<nat>,
                           turns: seq<(nat, nat)>)
    requires InStep(g, answer, |answer|, numParents, children, lv, turns)
    ensures FirstInFirstOut(g, answer, turns)
    ensures Removed(g, answer, numParents) && Queue(g, answer, |answer|, numParents, lv)
    ensures children == ChildTable(g, g.nodes - Elements(answer))
  {
    assert answer[..|answer|] == answer;
    hide Removed, Queue, ChildTable, Elements, FirstInFirstOut;
  }

  /** One round: take the next parent out of both tables. */
  method TakeParent<T(==,!new)>(ghost g: Graph<T>, i: nat, numParents0: map<T, int>, children0: map<T, seq<T>>,
                                answer0: seq<T>, ghost lv0: seq<nat>, ghost turns0: seq<(nat, nat)>)
    returns (numParents: map<T, int>, children: map<T, seq<T>>, answer: seq<T>, ghost lv: seq<nat>,
             ghost turns: seq<(nat, nat)>)
    requires Valid(g) && i < |answer0| && InStep(g, answer0, i, numParents0, children0, lv0, turns0)
    ensures i < |answer| && InStep(g, answer, i + 1, numParents, children, lv, turns)
    ensures |g.nodes - Elements(answer[..i + 1])| < |g.nodes - Elements(answer0[..i])|
  {
    hide Valid, Removed, Queue, Near, ChildTable, Elements, Kids, CountTable, CountingDown, ParentsFirst;
    hide FirstInFirstOut, Before, InTurn, Edge;
    numParents, children, answer, lv, turns := numParents0, children0, answer0, lv0, turns0;
    var parent := answer[i];
    StartParent(g, answer, i, numParents, lv);
    DropChildEntry(g, g.nodes - Elements(answer[..i]), parent);
    numParents := numParents - {parent};
    if parent in children {
      ghost var at: seq<nat>;
      numParents, answer, lv, at := KnockDown(g, i, children[parent], numParents, answer, lv);
      children := children - {parent};
      assert answer == answer0 + answer[|answer0|..] && answer[..i + 1] == answer0[..i + 1];
      QueuedParents(g, answer, i, |answer0|, numParents, lv);
      turns := TurnsMore(g, answer0, answer[|answer0|..], i, turns, at);
    } else {
      CountDone(g, g.nodes - Elements(answer[..i + 1]), numParents);
      LaterStill(turns, i);
    }
    assert answer[..i + 1] == answer0[..i + 1];
    EndParent(g, answer, i, numParents, lv);
  }

  method Topsort<T(==,!new)>(pairs: seq<(T, T)>) returns (r: SortOutcome<T>)
    ensures SortsPairs(pairs, r)
  {
    hide *;
    var numParents, children := BuildTables(pairs);
    ghost var g := GraphOf(pairs);
    GraphOfValid(pairs);

    var answer := KeysAtZero(numParents);
    ghost var lv := StartQueue(g, numParents, answer);
    ghost var turns := [];
    FirstStep(g, answer, numParents, children, lv);
    var i := 0;
    while i < |answer|
      invariant 0 <= i <= |answer| && InStep(g, answer, i, numParents, children, lv, turns)
      decreases |g.nodes - Elements(answer[..i])|
    {
      numParents, children, answer, lv, turns := TakeParent(g, i, numParents, children, answer, lv, turns);
      i := i + 1;
    }
    StepsDone(g, answer, numParents, children, lv, turns);
    SortEnds(pairs, answer, numParents, children, lv, turns);
    if numParents != map[] {
      r := CycleError(answer, numParents, children);
    } else {
      r := Sorted(answer);
    }
  }

  // ------------------------------------------------------ the sort by levels

  /** What the level generator yields, and the tables it leaves; `raised` is its CycleError. */
  datatype LevelsOutcome<T> = LevelsOutcome(
    levels: seq<seq<T>>, raised: bool, numParents: map<T, int>, children: map<T, seq<T>>)

  ghost predicate ListsLevel<T(!new)>(g: Graph<T>, level: seq<T>, k: nat) {
    && Distinct(level)
    && forall x :: x in level <==> x in g.nodes && AtLevel(g, x, k)
  }

  /** Level k lists, once each, exactly the nodes whose longest chain of ancestors has k edges;
      no level is empty and no node with a longest chain is left out. */
  ghost predicate ListsLevels<T(!new)>(g: Graph<T>, levels: seq<seq<T>>) {
    && (forall k :: 0 <= k < |levels| ==> levels[k] != [] && ListsLevel(g, levels[k], k))
    && (forall k: nat, x :: x in g.nodes && AtLevel(g, x, k) ==> k < |levels|)
  }

  /** Nodes with a chain of k edges: what is left after k levels. */
  ghost function Deep<T(!new)>(g: Graph<T>, k: nat): set<T> {
    set x | x in g.nodes && HasChain(g, x, k)
  }

  lemma DeepZero<T(!new)>(g: Graph<T>)
    ensures Deep(g, 0) == g.nodes
  {
    forall x | x in g.nodes ensures HasChain(g, x, 0) {
      ChainZero(g, x);
    }
  }

  /** Among the nodes with chains of k edges, those without a parent left are at level k. */
  lemma FreeAtLevel<T(!new)>(g: Graph<T>, x: T, k: nat)
    requires Valid(g) && x in Deep(g, k)
    ensures CountInto(g.pairs, x, Deep(g, k)) == 0 <==> AtLevel(g, x, k)
  {
    CountZero(g.pairs, x, Deep(g, k));
    if HasChain(g, x, k + 1) {
      var p := ChainParent(g, x, k);
      assert p in Deep(g, k) && (p, x) in g.pairs;
    } else {
      forall p | p in Deep(g, k) ensures (p, x) !in g.pairs {
        if (p, x) in g.pairs {
          ChainStep(g, p, x, k);
          assert false;
        }
      }
    }
  }

  lemma NextDeep<T(!new)>(g: Graph<T>, k: nat, level: seq<T>)
    requires Valid(g)
    requires forall x :: x in level <==> x in Deep(g, k) && AtLevel(g, x, k)
    ensures Deep(g, k) - Elements(level) == Deep(g, k + 1)
  {
    forall x | x in Deep(g, k + 1) ensures x in Deep(g, k) {
      ChainShorter(g, x, k + 1, k);
    }
  }

  lemma NoMoreLevels<T(!new)>(g: Graph<T>, k: nat, m: nat, x: T)
    requires Valid(g) && x in g.nodes && AtLevel(g, x, m)
    requires forall y :: y in Deep(g, k) ==> !AtLevel(g, y, k)
    ensures m < k
    decreases m
  {
    if m >= k {
      ChainShorter(g, x, m, k);
      if m > k {
        var p := ChainParent(g, x, m - 1);
        if HasChain(g, p, m) {
          ChainStep(g, p, x, m);
          assert false;
        }
        NoMoreLevels(g, k, m - 1, p);
      }
      assert false;
    }
  }

  /** Take one level parent off the counts of its children. */
  method CountDown<T(==,!new)>(ghost g: Graph<T>, ghost alive: set<T>, kids: seq<T>, numParents: map<T, int>)
    returns (np: map<T, int>)
    requires CountingDown(g, alive, kids, numParents)
    ensures np == CountTable(g, alive)
  {
    hide CountTable, CountInto;
    np := numParents;
    assert kids[0..] == kids;
    for j := 0 to |kids|
      invariant CountingDown(g, alive, kids[j..], np)
    {
      CountStep(g, alive, kids, j, np);
      np := np[kids[j] := np[kids[j]] - 1];
    }
    assert kids[|kids|..] == [];
    CountDone(g, alive, np);
  }

  /** part of a level has been removed, the rest still has count zero. */
  ghost predicate LevelPending<T(!new)>(level: seq<T>, m: nat, numParents: map<T, int>)
    requires m <= |level|
  {
    && Distinct(level)
    && forall k :: m <= k < |level| ==> level[k] in numParents && numParents[level[k]] == 0
  }

  lemma StartLevelParent<T(!new)>(g: Graph<T>, order: seq<T>, level: seq<T>, m: nat, numParents: map<T, int>)
    requires Valid(g) && m < |level| && LevelPending(level, m, numParents)
    requires Removed(g, order + level[..m], numParents)
    ensures level[m] in numParents && level[m] in g.nodes - Elements(order + level[..m])
    ensures ParentsFirst(g, order + level[..m + 1])
    ensures g.nodes - Elements(order + level[..m + 1]) == g.nodes - Elements(order + level[..m]) - {level[m]}
    ensures CountingDown(g, g.nodes - Elements(order + level[..m + 1]), Kids(g.pairs, level[m]),
                         numParents - {level[m]})
    ensures LevelPending(level, m + 1, CountTable(g, g.nodes - Elements(order + level[..m + 1])))
  {
    assert order + level[..m] + [level[m]] == order + level[..m + 1];
    RemoveNext(g, order + level[..m], numParents, level[m]);
    var alive := g.nodes - Elements(order + level[..m]);
    hide ParentsFirst, Edge, Kids;
    forall k | m + 1 <= k < |level|
      ensures level[k] in alive - {level[m]} && CountInto(g.pairs, level[k], alive - {level[m]}) == 0
    {
      assert level[k] in numParents && level[k] != level[m];
      CountZero(g.pairs, level[k], alive);
      CountZero(g.pairs, level[k], alive - {level[m]});
    }
  }

  lemma DropEntry<T>(children: map<T, seq<T>>, alive: set<T>, p: T)
    requires p in alive
    ensures Restrict(children, alive - {p}) == Restrict(children, alive) - {p}
    ensures p in Restrict(children, alive) <==> p in children
    ensures p in children ==> Restrict(children, alive)[p] == children[p]
  {
  }

  /** Delete one whole level from both tables. */
  method RemoveLevel<T(==,!new)>(ghost g: Graph<T>, ghost children0: map<T, seq<T>>, ghost order: seq<T>,
                                 level: seq<T>, numParents: map<T, int>, children: map<T, seq<T>>)
    returns (np: map<T, int>, ch: map<T, seq<T>>)
    requires Valid(g) && Removed(g, order, numParents) && LevelPending(level, 0, numParents)
    requires ListsKids(g, children0)
    requires children == Restrict(children0, g.nodes - Elements(order))
    ensures Removed(g, order + level, np)
    ensures ch == Restrict(children0, g.nodes - Elements(order + level))
  {
    hide Valid, ParentsFirst, CountTable, Elements, Kids, Restrict, CountingDown, LevelPending;
    np, ch := numParents, children;
    assert order + level[..0] == order;
    for m := 0 to |level|
      invariant Removed(g, order + level[..m], np) && LevelPending(level, m, np)
      invariant ch == Restrict(children0, g.nodes - Elements(order + level[..m]))
    {
      var p := level[m];
      StartLevelParent(g, order, level, m, np);
      DropEntry(children0, g.nodes - Elements(order + level[..m]), p);
      np := np - {p};
      if p in ch {
        np := CountDown(g, g.nodes - Elements(order + level[..m + 1]), ch[p], np);
        ch := ch - {p};
      } else {
        CountDone(g, g.nodes - Elements(order + level[..m + 1]), np);
      }
    }
    assert level[..|level|] == level;
  }

  ghost predicate LevelsSoFar<T(!new)>(g: Graph<T>, levels: seq<seq<T>>) {
    forall k :: 0 <= k < |levels| ==> levels[k] != [] && ListsLevel(g, levels[k], k)
  }

  lemma NextListed<T(!new)>(g: Graph<T>, k: nat, numParents: map<T, int>, level: seq<T>)
    requires Valid(g) && numParents == CountTable(g, Deep(g, k)) && ListsZeros(numParents, level)
    ensures ListsLevel(g, level, k) && LevelPending(level, 0, numParents)
  {
    forall x ensures x in level <==> x in g.nodes && AtLevel(g, x, k) {
      assert x in level <==> x in Deep(g, k) && CountInto(g.pairs, x, Deep(g, k)) == 0;
      hide ListsZeros, CountTable;
      if x in Deep(g, k) { FreeAtLevel(g, x, k); }
    }
    forall i | 0 <= i < |level| ensures level[i] in numParents && numParents[level[i]] == 0 {
      assert level[i] in level;
    }
  }

  lemma NextLevel<T(!new)>(g: Graph<T>, order: seq<T>, k: nat, numParents: map<T, int>, level: seq<T>)
    requires Valid(g) && Removed(g, order, numParents)
    requires g.nodes - Elements(order) == Deep(g, k)
    requires ListsZeros(numParents, level)
    ensures ListsLevel(g, level, k)
    ensures LevelPending(level, 0, numParents)
    ensures g.nodes - Elements(order + level) == Deep(g, k + 1)
    ensures level != [] ==> |Deep(g, k + 1)| < |Deep(g, k)|
  {
    NextListed(g, k, numParents, level);
    assert forall x :: x in level ==> x in Deep(g, k);
    NextDeep(g, k, level);
    assert Elements(order + level) == Elements(order) + Elements(level);
    hide ParentsFirst, CountTable, Valid, AtLevel, HasChain, ListsZeros, LevelPending;
    if level != [] {
      assert level[0] in level && level[0] in Deep(g, k) && level[0] !in Deep(g, k + 1);
      SubsetSize(Deep(g, k + 1), Deep(g, k));
    }
  }

  lemma LevelsEnd<T(!new)>(g: Graph<T>, children0: map<T, seq<T>>, order: seq<T>, levels: seq<seq<T>>,
                           numParents: map<T, int>, children: map<T, seq<T>>)
    requires Valid(g) && Between(g, children0, order, levels, numParents, children)
    requires ListsZeros(numParents, [])
    ensures children == Restrict(children0, BelowCycles(g))
    ensures ListsLevels(g, levels)
    ensures Deep(g, |levels|) == BelowCycles(g)
    ensures numParents == CountTable(g, BelowCycles(g))
    ensures numParents != map[] <==> HasCycle(g)
  {
    var zeros: seq<T> := [];
    forall x | x in numParents ensures numParents[x] != 0 {
      assert x !in zeros;
    }
    forall y | y in Deep(g, |levels|) ensures !AtLevel(g, y, |levels|) {
      FreeAtLevel(g, y, |levels|);
      assert y in numParents;
    }
    forall k: nat, x | x in g.nodes && AtLevel(g, x, k) ensures k < |levels| {
      NoMoreLevels(g, |levels|, k, x);
    }
    hide ParentsFirst, CountTable, Deep, Restrict, Elements, LevelsSoFar, BelowCycles, HasCycle, AtLevel;
    QueueEmpty(g, order, numParents);
  }

  /** Whole levels have been listed and deleted, and the tables describe the rest. */
  ghost predicate Between<T(!new)>(g: Graph<T>, children0: map<T, seq<T>>, order: seq<T>, levels: seq<seq<T>>,
                                   numParents: map<T, int>, children: map<T, seq<T>>) {
    && Removed(g, order, numParents) && LevelsSoFar(g, levels)
    && g.nodes - Elements(order) == Deep(g, |levels|)
    && children == Restrict(children0, g.nodes - Elements(order))
  }

  /** One round: list the next level and delete it from both tables. */
  method TakeLevel<T(==,!new)>(ghost g: Graph<T>, ghost children0: map<T, seq<T>>, ghost order: seq<T>,
                               levels: seq<seq<T>>, level: seq<T>, numParents: map<T, int>, children: map<T, seq<T>>)
    returns (np: map<T, int>, ch: map<T, seq<T>>)
    requires Valid(g) && Between(g, children0, order, levels, numParents, children)
    requires ListsKids(g, children0)
    requires ListsZeros(numParents, level) && level != []
    ensures Between(g, children0, order + level, levels + [level], np, ch)
    ensures |Deep(g, |levels| + 1)| < |Deep(g, |levels|)|
  {
    hide Valid, Removed, LevelsSoFar, Deep, Restrict, Elements, Kids, ListsZeros, LevelPending, ListsLevel;
    NextLevel(g, order, |levels|, numParents, level);
    np, ch := RemoveLevel(g, children0, order, level, numParents, children);
    MoreLevels(g, levels, level);
  }

  method TopsortLevelsCore<T(==,!new)>(ghost g: Graph<T>, numParents: map<T, int>, children: map<T, seq<T>>)
    returns (r: LevelsOutcome<T>)
    requires Valid(g) && Describes(g, numParents, children)
    ensures ListsLevels(g, r.levels)
    ensures r.raised <==> HasCycle(g)
    ensures r.numParents == CountTable(g, BelowCycles(g))
    ensures r.children == Restrict(children, BelowCycles(g))
  {
    hide *;
    var np, ch, levels := numParents, children, [];
    ghost var order := [];
    LevelsStart(g, numParents, children);
    while true
      invariant Between(g, children, order, levels, np, ch)
      decreases |Deep(g, |levels|)|
    {
      var level := KeysAtZero(np);
      if level == [] {
        break;
      }
      np, ch := TakeLevel(g, children, order, levels, level, np, ch);
      levels, order := levels + [level], order + level;
    }
    LevelsEnd(g, children, order, levels, np, ch);
    r := LevelsOutcome(levels, np != map[], np, ch);
  }

  lemma LevelsStart<T(!new)>(g: Graph<T>, numParents: map<T, int>, children: map<T, seq<T>>)
    requires Describes(g, numParents, children)
    ensures ListsKids(g, children) && Between(g, children, [], [], numParents, children)
  {
    DeepZero(g);
    assert g.nodes - Elements([]) == g.nodes;
  }

  lemma MoreLevels<T(!new)>(g: Graph<T>, levels: seq<seq<T>>, level: seq<T>)
    requires LevelsSoFar(g, levels) && level != [] && ListsLevel(g, level, |levels|)
    ensures LevelsSoFar(g, levels + [level])
  {
  }

  method TopsortLevels<T(==,!new)>(pairs: seq<(T, T)>) returns (r: LevelsOutcome<T>)
    ensures ListsLevels(GraphOf(pairs), r.levels)
    ensures r.raised <==> HasCycle(GraphOf(pairs))
    ensures r.numParents == CountTable(GraphOf(pairs), BelowCycles(GraphOf(pairs)))
    ensures r.children == ChildTable(GraphOf(pairs), BelowCycles(GraphOf(pairs)))
  {
    var numParents, children := BuildTables(pairs);
    GraphOfValid(pairs);
    hide *;
    TablesDescribe(pairs, numParents, children);
    r := TopsortLevelsCore(GraphOf(pairs), numParents, children);
  }

  lemma TablesDescribe<T(!new)>(pairs: seq<(T, T)>, numParents: map<T, int>, children: map<T, seq<T>>)
    requires numParents == CountTable(GraphOf(pairs), ElementsOf(pairs))
    requires children == ChildTable(GraphOf(pairs), ElementsOf(pairs))
    ensures Describes(GraphOf(pairs), numParents, children)
    ensures Restrict(children, BelowCycles(GraphOf(pairs))) == ChildTable(GraphOf(pairs), BelowCycles(GraphOf(pairs)))
  {
  }
}
