/** The cycle enumeration of bindings/python/topsort.py: a stack of paths, explored from every
    root, with repeated cycles recognised up to rotation. */
module Cycles {
  import opened Common
  import opened Graphs
  import opened Rotations

  // ------------------------------------------------ paths and simple cycles

  ghost predicate Step<T>(pc: map<T, seq<T>>, a: T, b: T) {
    a in pc && b in pc[a]
  }

  ghost predicate Steps<T>(pc: map<T, seq<T>>, p: seq<T>) {
    forall i :: 0 <= i < |p| - 1 ==> Step(pc, p[i], p[i + 1])
  }

  ghost predicate SimplePath<T>(pc: map<T, seq<T>>, r: T, p: seq<T>) {
    |p| > 0 && p[0] == r && Distinct(p) && Steps(pc, p)
  }

  /** A list of distinct items, each a parent of the next and the last a parent of the first. */
  ghost predicate SimpleCycle<T>(pc: map<T, seq<T>>, c: seq<T>) {
    |c| > 0 && Distinct(c) && Steps(pc, c) && Step(pc, c[|c| - 1], c[0])
  }

  ghost predicate Found<T>(cycles: seq<seq<T>>, c: seq<T>) {
    exists i :: 0 <= i < |cycles| && Rotation(cycles[i], c)
  }

  /** The cycles listed are simple, no two are rotations of each other, and every simple
      cycle is listed up to rotation. */
  ghost predicate EnumeratesCycles<T(!new)>(pc: map<T, seq<T>>, cycles: seq<seq<T>>) {
    && (forall i :: 0 <= i < |cycles| ==> SimpleCycle(pc, cycles[i]))
    && (forall i, j :: 0 <= i < |cycles| && 0 <= j < |cycles| && i != j ==> !Rotation(cycles[i], cycles[j]))
    && (forall c :: SimpleCycle(pc, c) ==> Found(cycles, c))
  }

  // ------------------------------------------------------------- the search

  /** Every cycle that closes at the end of p has been found. */
  ghost predicate Closed<T>(pc: map<T, seq<T>>, cycles: seq<seq<T>>, p: seq<T>) {
    forall k :: 0 <= k < |p| && Step(pc, p[|p| - 1], p[k]) ==> Found(cycles, p[k..])
  }

  ghost predicate Extends<T>(stack: seq<seq<T>>, p: seq<T>) {
    exists i :: 0 <= i < |stack| && stack[i] <= p
  }

  /** Of the simple paths from r, those not yet closed extend a path on the stack. */
  ghost predicate Pending<T(!new)>(pc: map<T, seq<T>>, cycles: seq<seq<T>>, r: T, stack: seq<seq<T>>) {
    forall p :: SimplePath(pc, r, p) ==> Closed(pc, cycles, p) || Extends(stack, p)
  }

  /** p goes on from path through one of the given children. */
  ghost predicate Through<T>(path: seq<T>, kids: seq<T>, p: seq<T>) {
    path <= p && |path| < |p| && p[|path|] in kids
  }

  /** The same while path is off the stack and kids are its children still to come. */
  ghost predicate PendingKids<T(!new)>(pc: map<T, seq<T>>, cycles: seq<seq<T>>, r: T, stack: seq<seq<T>>,
                                       path: seq<T>, kids: seq<T>) {
    forall p :: SimplePath(pc, r, p) ==>
      Closed(pc, cycles, p) || Extends(stack, p) || p == path || Through(path, kids, p)
  }

  ghost predicate Stacked<T>(pc: map<T, seq<T>>, r: T, stack: seq<seq<T>>) {
    forall i :: 0 <= i < |stack| ==> SimplePath(pc, r, stack[i])
  }

  /** The cycles that close path through the children already seen have been found. */
  ghost predicate ClosedBy<T>(cycles: seq<seq<T>>, path: seq<T>, seen: seq<T>) {
    forall k :: 0 <= k < |path| && path[k] in seen ==> Found(cycles, path[k..])
  }

  lemma FoundMore<T>(cycles: seq<seq<T>>, c: seq<T>, p: seq<T>)
    requires Found(cycles, p)
    ensures Found(cycles + [c], p)
  {
    var i :| 0 <= i < |cycles| && Rotation(cycles[i], p);
    assert (cycles + [c])[i] == cycles[i];
  }

  lemma FoundNow<T>(cycles: seq<seq<T>>, c: seq<T>)
    requires c != []
    ensures Found(cycles + [c], c)
  {
    RotationSame(c);
    assert (cycles + [c])[|cycles|] == c;
  }

  lemma StartRoot<T(!new)>(pc: map<T, seq<T>>, cycles: seq<seq<T>>, r: T)
    ensures Pending(pc, cycles, r, [[r]]) && Stacked(pc, r, [[r]])
  {
    var stack := [[r]];
    forall p | SimplePath(pc, r, p) ensures Extends(stack, p) {
      assert stack[0] <= p;
    }
  }

  lemma PopPath<T(!new)>(pc: map<T, seq<T>>, cycles: seq<seq<T>>, r: T, stack: seq<seq<T>>, path: seq<T>)
    requires Pending(pc, cycles, r, stack + [path]) && Stacked(pc, r, stack + [path])
    ensures SimplePath(pc, r, path) && Stacked(pc, r, stack)
    ensures PendingKids(pc, cycles, r, stack, path, ChildrenOf(pc, path[|path| - 1]))
  {
    var whole := stack + [path];
    assert whole[|stack|] == path;
    forall i | 0 <= i < |stack| ensures SimplePath(pc, r, stack[i]) {
      assert whole[i] == stack[i];
    }
    forall p | SimplePath(pc, r, p) && !Closed(pc, cycles, p)
      ensures Extends(stack, p) || p == path || Through(path, ChildrenOf(pc, path[|path| - 1]), p)
    {
      var i :| 0 <= i < |whole| && whole[i] <= p;
      if i < |stack| {
        assert stack[i] <= p;
      } else if p != path {
        assert path <= p && p[..|path|] == path;
        assert Step(pc, p[|path| - 1], p[|path| - 1 + 1]);
      }
    }
  }

  lemma PushKid<T(!new)>(pc: map<T, seq<T>>, cycles: seq<seq<T>>, r: T, stack: seq<seq<T>>,
                         path: seq<T>, child: T, rest: seq<T>)
    requires PendingKids(pc, cycles, r, stack, path, [child] + rest) && child !in path
    requires SimplePath(pc, r, path) && Step(pc, path[|path| - 1], child) && Stacked(pc, r, stack)
    ensures PendingKids(pc, cycles, r, stack + [path + [child]], path, rest)
    ensures SimplePath(pc, r, path + [child]) && Stacked(pc, r, stack + [path + [child]])
  {
    var more := stack + [path + [child]];
    forall p | SimplePath(pc, r, p) && Extends(stack, p) ensures Extends(more, p) {
      var i :| 0 <= i < |stack| && stack[i] <= p;
      assert more[i] <= p;
    }
    forall p | Through(path, [child] + rest, p) ensures Extends(more, p) || Through(path, rest, p) {
      if p[|path|] == child {
        assert path + [child] <= p;
        assert more[|stack|] <= p;
      }
    }
    assert SimplePath(pc, r, path + [child]) by {
      var p := path + [child];
      forall i | 0 <= i < |p| - 1 ensures Step(pc, p[i], p[i + 1]) {
        if i < |path| - 1 { assert Step(pc, path[i], path[i + 1]); }
      }
    }
  }

  lemma NoteCycle<T(!new)>(pc: map<T, seq<T>>, cycles: seq<seq<T>>, r: T, stack: seq<seq<T>>,
                           path: seq<T>, kids: seq<T>, c: seq<T>)
    requires PendingKids(pc, cycles, r, stack, path, kids)
    ensures PendingKids(pc, cycles + [c], r, stack, path, kids)
  {
    forall p | Closed(pc, cycles, p) ensures Closed(pc, cycles + [c], p) {
      ClosedMore(pc, cycles, c, p);
    }
  }

  lemma ClosedMore<T>(pc: map<T, seq<T>>, cycles: seq<seq<T>>, c: seq<T>, p: seq<T>)
    requires Closed(pc, cycles, p)
    ensures Closed(pc, cycles + [c], p)
  {
    forall k | 0 <= k < |p| && Step(pc, p[|p| - 1], p[k]) ensures Found(cycles + [c], p[k..]) {
      FoundMore(cycles, c, p[k..]);
    }
  }

  // ------------------------------------------------------------ termination

  /** The given set holds every child. */
  ghost predicate Covers<T>(pc: map<T, seq<T>>, nodes: set<T>) {
    forall a :: a in pc ==> Elements(pc[a]) <= nodes
  }

  /** The number of pops that exploring path takes. */
  ghost function Cost<T>(pc: map<T, seq<T>>, nodes: set<T>, path: seq<T>): nat
    requires |path| > 0 && Covers(pc, nodes)
    decreases |nodes - Elements(path)|, 1, 0
  {
    1 + KidsCost(pc, nodes, path, ChildrenOf(pc, path[|path| - 1]))
  }

  ghost function KidsCost<T>(pc: map<T, seq<T>>, nodes: set<T>, path: seq<T>, kids: seq<T>): nat
    requires Covers(pc, nodes) && Elements(kids) <= nodes
    decreases |nodes - Elements(path)|, 0, |kids|
  {
    if kids == [] then 0
    else if kids[0] in path then KidsCost(pc, nodes, path, kids[1..])
    else
      assert kids[0] in Elements(kids);
      OneLess(nodes, path, kids[0]);
      Cost(pc, nodes, path + [kids[0]]) + KidsCost(pc, nodes, path, kids[1..])
  }

  ghost function StackCost<T>(pc: map<T, seq<T>>, nodes: set<T>, stack: seq<seq<T>>): nat
    requires Covers(pc, nodes)
  {
    if stack == [] then 0
    else
      var path := stack[|stack| - 1];
      StackCost(pc, nodes, stack[..|stack| - 1]) + if path == [] then 0 else Cost(pc, nodes, path)
  }

  lemma OneLess<T>(nodes: set<T>, path: seq<T>, x: T)
    requires x in nodes && x !in path
    ensures |nodes - Elements(path + [x])| < |nodes - Elements(path)|
  {
    assert nodes - Elements(path + [x]) == nodes - Elements(path) - {x};
  }

  // ------------------------------------------------------------ completeness

  /** v lies on a simple path from one of the roots. */
  ghost predicate Reached<T(!new)>(pc: map<T, seq<T>>, roots: set<T>, v: T) {
    exists r, p :: r in roots && SimplePath(pc, r, p) && p[|p| - 1] == v
  }

  lemma RotateCycle<T>(pc: map<T, seq<T>>, c: seq<T>, q: nat)
    requires SimpleCycle(pc, c) && q < |c|
    ensures SimpleCycle(pc, Rotate(c, q))
  {
  }

  /** A path cut where it first meets a cycle can go once round that cycle. */
  lemma LeadIn<T>(pc: map<T, seq<T>>, r: T, p: seq<T>, m: nat, c: seq<T>)
    requires SimplePath(pc, r, p) && m < |p| && SimpleCycle(pc, c) && c[0] == p[m]
    requires forall i :: 0 <= i < m ==> p[i] !in c
    ensures SimplePath(pc, r, p[..m] + c)
  {
  }

  lemma {:induction false} FirstOn<T>(p: seq<T>, c: seq<T>) returns (m: nat)
    requires |p| > 0 && p[|p| - 1] in c
    ensures m < |p| && p[m] in c && forall i :: 0 <= i < m ==> p[i] !in c
  {
    if p[0] in c {
      m := 0;
    } else {
      var k := FirstOn(p[1..], c);
      m := k + 1;
      forall i | 0 <= i < m ensures p[i] !in c {
        if i > 0 { assert p[1..][i - 1] == p[i]; }
      }
    }
  }

  /** The walk to a rotation of c that some root leads to. */
  lemma WalkOnto<T(!new)>(pc: map<T, seq<T>>, roots: set<T>, c: seq<T>) returns (r: T, w: seq<T>, m: nat)
    requires SimpleCycle(pc, c) && Reached(pc, roots, c[0])
    ensures r in roots && SimplePath(pc, r, w) && m < |w|
    ensures SimpleCycle(pc, w[m..]) && Rotation(c, w[m..])
  {
    var p;
    r, p :| r in roots && SimplePath(pc, r, p) && p[|p| - 1] == c[0];
    m := FirstOn(p, c);
    var q :| 0 <= q < |c| && c[q] == p[m];
    var d := Rotate(c, q);
    RotateCycle(pc, c, q);
    hide Steps;
    assert forall x :: x in d <==> x in c;
    LeadIn(pc, r, p, m, d);
    w := p[..m] + d;
    assert w[m..] == d;
  }

  /** A cycle that some fully explored root leads to has been found. */
  lemma CycleFound<T(!new)>(pc: map<T, seq<T>>, cycles: seq<seq<T>>, roots: set<T>, c: seq<T>)
    requires forall r :: r in roots ==> Pending(pc, cycles, r, [])
    requires SimpleCycle(pc, c) && Reached(pc, roots, c[0])
    ensures Found(cycles, c)
  {
    var r, w, m := WalkOnto(pc, roots, c);
    assert Pending(pc, cycles, r, []);
    assert Closed(pc, cycles, w);
    assert Step(pc, w[|w| - 1], w[m]) by {
      assert w[m..][0] == w[m] && w[m..][|w| - m - 1] == w[|w| - 1];
    }
    hide SimplePath, SimpleCycle, Pending;
    var i :| 0 <= i < |cycles| && Rotation(cycles[i], w[m..]);
    RotationBack(c, w[m..]);
    RotationChain(cycles[i], w[m..], c);
  }

  // -------------------------------------------------------------- the method

  /** What holds of the cycles listed so far. */
  ghost predicate Listed<T>(pc: map<T, seq<T>>, cycles: seq<seq<T>>) {
    && (forall i :: 0 <= i < |cycles| ==> SimpleCycle(pc, cycles[i]))
    && (forall i, j :: 0 <= i < |cycles| && 0 <= j < |cycles| && i != j ==> !Rotation(cycles[i], cycles[j]))
  }

  lemma ListMore<T>(pc: map<T, seq<T>>, cycles: seq<seq<T>>, c: seq<T>)
    requires Listed(pc, cycles) && SimpleCycle(pc, c) && !Found(cycles, c)
    ensures Listed(pc, cycles + [c])
  {
    hide SimpleCycle;
    var more := cycles + [c];
    forall i, j | 0 <= i < |more| && 0 <= j < |more| && i != j ensures !Rotation(more[i], more[j]) {
      if j == |cycles| {
        assert !Rotation(cycles[i], c);
      } else if i == |cycles| {
        if Rotation(c, cycles[j]) {
          RotationBack(c, cycles[j]);
          assert false;
        }
      }
    }
  }

  lemma TailCycle<T>(pc: map<T, seq<T>>, r: T, path: seq<T>, k: nat)
    requires SimplePath(pc, r, path) && k < |path| && Step(pc, path[|path| - 1], path[k])
    ensures SimpleCycle(pc, path[k..])
  {
  }

  /** list.index: the first position of an item that is present. */
  method IndexOf<T(==)>(path: seq<T>, x: T) returns (k: nat)
    requires x in path
    ensures k < |path| && path[k] == x && forall i :: 0 <= i < k ==> path[i] != x
  {
    k := 0;
    while path[k] != x
      invariant k < |path| && x in path[k..]
      invariant forall i :: 0 <= i < k ==> path[i] != x
      decreases |path| - k
    {
      assert path[k..] == [path[k]] + path[k + 1..];
      k := k + 1;
    }
  }

  /** Is some listed cycle a rotation of this one? */
  method IsDuplicate<T(==)>(cycles: seq<seq<T>>, cycle: seq<T>) returns (isDup: bool)
    requires cycle != []
    ensures isDup <==> Found(cycles, cycle)
  {
    isDup := false;
    for i := 0 to |cycles|
      invariant !isDup && forall j :: 0 <= j < i ==> !Rotation(cycles[j], cycle)
    {
      var test := IsRotated(cycles[i], cycle);
      if test.rotated {
        isDup := true;
        break;
      }
    }
  }

  /** While the children of one path are being read. */
  ghost predicate Reading<T(!new)>(pc: map<T, seq<T>>, r: T, cycles: seq<seq<T>>, stack: seq<seq<T>>,
                                   path: seq<T>, kids: seq<T>, j: nat)
    requires j <= |kids|
  {
    && SimplePath(pc, r, path) && Stacked(pc, r, stack) && Listed(pc, cycles)
    && kids == ChildrenOf(pc, path[|path| - 1])
    && PendingKids(pc, cycles, r, stack, path, kids[j..])
    && ClosedBy(cycles, path, kids[..j])
  }

  lemma ReadCycle<T(!new)>(pc: map<T, seq<T>>, r: T, cycles: seq<seq<T>>, stack: seq<seq<T>>,
                           path: seq<T>, kids: seq<T>, j: nat, k: nat)
    requires j < |kids| && Reading(pc, r, cycles, stack, path, kids, j)
    requires k < |path| && path[k] == kids[j]
    ensures SimpleCycle(pc, path[k..])
    ensures Found(cycles, path[k..]) ==> Reading(pc, r, cycles, stack, path, kids, j + 1)
    ensures !Found(cycles, path[k..]) ==> Reading(pc, r, cycles + [path[k..]], stack, path, kids, j + 1)
  {
    var c := path[k..];
    assert Step(pc, path[|path| - 1], path[k]) by {
      assert kids[j] in kids;
    }
    TailCycle(pc, r, path, k);
    assert kids[j..] == [kids[j]] + kids[j + 1..];
    assert kids[..j + 1] == kids[..j] + [kids[j]];
    var after := if Found(cycles, c) then cycles else cycles + [c];
    if !Found(cycles, c) {
      NoteCycle(pc, cycles, r, stack, path, kids[j + 1..], c);
      ListMore(pc, cycles, c);
      FoundNow(cycles, c);
    }
    assert Distinct(path) && SimplePath(pc, r, path);
    hide SimpleCycle, PendingKids, Listed, Stacked, Steps, Rotation;
    forall i | 0 <= i < |path| && path[i] in kids[..j + 1] ensures Found(after, path[i..]) {
      if path[i] == kids[j] {
        assert i == k;
      } else {
        assert path[i] in kids[..j];
        assert Found(cycles, path[i..]);
        if after != cycles { FoundMore(cycles, c, path[i..]); }
      }
    }
  }

  lemma ReadKid<T(!new)>(pc: map<T, seq<T>>, r: T, cycles: seq<seq<T>>, stack: seq<seq<T>>,
                         path: seq<T>, kids: seq<T>, j: nat)
    requires j < |kids| && Reading(pc, r, cycles, stack, path, kids, j)
    requires kids[j] !in path
    ensures Reading(pc, r, cycles, stack + [path + [kids[j]]], path, kids, j + 1)
    ensures SimplePath(pc, r, path + [kids[j]])
  {
    assert Step(pc, path[|path| - 1], kids[j]) by {
      assert kids[j] in kids;
    }
    assert kids[j..] == [kids[j]] + kids[j + 1..];
    PushKid(pc, cycles, r, stack, path, kids[j], kids[j + 1..]);
    assert kids[..j + 1] == kids[..j] + [kids[j]];
    hide PendingKids, Listed, Stacked, SimplePath, Found;
  }

  /** Reads the children of a path that was popped: closes cycles, pushes longer paths. */
  method ReadChildren<T(==,!new)>(pc: map<T, seq<T>>, ghost nodes: set<T>, ghost r: T, path: seq<T>,
                                  cycles0: seq<seq<T>>, stack0: seq<seq<T>>, visited0: set<T>)
    returns (cycles: seq<seq<T>>, stack: seq<seq<T>>, visited: set<T>)
    requires Covers(pc, nodes) && path != [] && path[|path| - 1] in pc
    requires Reading(pc, r, cycles0, stack0, path, pc[path[|path| - 1]], 0)
    ensures Pending(pc, cycles, r, stack) && Stacked(pc, r, stack)
    ensures Listed(pc, cycles) && cycles0 <= cycles
    ensures StackCost(pc, nodes, stack) < StackCost(pc, nodes, stack0) + Cost(pc, nodes, path)
    ensures forall v :: v in visited ==> v in visited0 || Reached(pc, {r}, v)
  {
    var children := pc[path[|path| - 1]];
    cycles, stack, visited := cycles0, stack0, visited0;
    assert children[0..] == children;
    hide *;
    for j := 0 to |children|
      invariant Reading(pc, r, cycles, stack, path, children, j) && cycles0 <= cycles
      invariant Elements(children[j..]) <= nodes
      invariant StackCost(pc, nodes, stack) + KidsCost(pc, nodes, path, children[j..])
             < StackCost(pc, nodes, stack0) + Cost(pc, nodes, path)
      invariant forall v :: v in visited ==> v in visited0 || Reached(pc, {r}, v)
    {
      var child := children[j];
      if child in path {
        var k := IndexOf(path, child);
        var cycle := path[k..];
        ReadCycle(pc, r, cycles, stack, path, children, j, k);
        var isDup := IsDuplicate(cycles, cycle);
        if !isDup {
          cycles := cycles + [cycle];
        }
      } else {
        ReadKid(pc, r, cycles, stack, path, children, j);
        PathReaches(pc, r, path + [child]);
        stack := stack + [path + [child]];
        visited := visited + {child};
      }
    }
    ReadAll(pc, r, cycles, stack, path, children);
  }

  lemma PathReaches<T(!new)>(pc: map<T, seq<T>>, r: T, p: seq<T>)
    requires SimplePath(pc, r, p)
    ensures Reached(pc, {r}, p[|p| - 1])
  {
  }

  lemma ReadAll<T(!new)>(pc: map<T, seq<T>>, r: T, cycles: seq<seq<T>>, stack: seq<seq<T>>, path: seq<T>, kids: seq<T>)
    requires Reading(pc, r, cycles, stack, path, kids, |kids|)
    ensures Pending(pc, cycles, r, stack) && Stacked(pc, r, stack) && Listed(pc, cycles)
  {
  }

  // ------------------------------------------------------------ all the roots

  /** The roots explored so far lead to every key and every visited node handled so far. */
  ghost predicate Explored<T(!new)>(pc: map<T, seq<T>>, cycles: seq<seq<T>>, roots: set<T>, handled: set<T>,
                                    visited: set<T>) {
    && (forall r :: r in roots ==> Pending(pc, cycles, r, []))
    && (forall v :: v in handled ==> Reached(pc, roots, v))
    && (forall v :: v in visited ==> Reached(pc, roots, v))
  }

  lemma PendingMore<T(!new)>(pc: map<T, seq<T>>, cycles: seq<seq<T>>, more: seq<seq<T>>, r: T)
    requires Pending(pc, cycles, r, []) && cycles <= more
    ensures Pending(pc, more, r, [])
  {
  }

  lemma ReachedMore<T(!new)>(pc: map<T, seq<T>>, roots: set<T>, more: set<T>, v: T)
    requires Reached(pc, roots, v) && roots <= more
    ensures Reached(pc, more, v)
  {
  }

  lemma RootDone<T(!new)>(pc: map<T, seq<T>>, cycles: seq<seq<T>>, more: seq<seq<T>>, roots: set<T>, handled: set<T>,
                          visited: set<T>, visited': set<T>, r: T)
    requires Explored(pc, cycles, roots, handled, visited) && cycles <= more
    requires Pending(pc, more, r, [])
    requires forall v :: v in visited' ==> v in visited || Reached(pc, {r}, v)
    ensures Explored(pc, more, roots + {r}, handled + {r}, visited')
  {
    forall q | q in roots + {r} ensures Pending(pc, more, q, []) {
      if q in roots { PendingMore(pc, cycles, more, q); }
    }
    PathReaches(pc, r, [r]);
    hide Pending, SimplePath, Reached;
    forall v | v in handled + {r} || v in visited' ensures Reached(pc, roots + {r}, v) {
      if Reached(pc, roots, v) {
        ReachedMore(pc, roots, roots + {r}, v);
      } else {
        ReachedMore(pc, {r}, roots + {r}, v);
      }
    }
  }

  lemma AlreadyVisited<T(!new)>(pc: map<T, seq<T>>, cycles: seq<seq<T>>, roots: set<T>, handled: set<T>,
                                visited: set<T>, v: T)
    requires Explored(pc, cycles, roots, handled, visited) && v in visited
    ensures Explored(pc, cycles, roots, handled + {v}, visited)
  {
  }

  /** Once all keys are handled nothing is missing: every cycle starts at a key. */
  lemma AllFound<T(!new)>(pc: map<T, seq<T>>, cycles: seq<seq<T>>, roots: set<T>, visited: set<T>)
    requires Explored(pc, cycles, roots, pc.Keys, visited) && Listed(pc, cycles)
    ensures EnumeratesCycles(pc, cycles)
  {
    hide Pending, Reached, Rotation, Found;
    forall c | SimpleCycle(pc, c) ensures Found(cycles, c) {
      assert c[0] in pc.Keys by {
        if |c| > 1 { assert Step(pc, c[0], c[0 + 1]); }
      }
      CycleFound(pc, cycles, roots, c);
    }
  }

  lemma PopStack<T(!new)>(pc: map<T, seq<T>>, nodes: set<T>, cycles: seq<seq<T>>, r: T, stack: seq<seq<T>>,
                          path: seq<T>)
    requires Pending(pc, cycles, r, stack + [path]) && Stacked(pc, r, stack + [path]) && Listed(pc, cycles)
    requires Covers(pc, nodes)
    ensures path != [] && Stacked(pc, r, stack)
    ensures path[|path| - 1] in pc ==> Reading(pc, r, cycles, stack, path, pc[path[|path| - 1]], 0)
    ensures path[|path| - 1] !in pc ==> Pending(pc, cycles, r, stack)
    ensures StackCost(pc, nodes, stack + [path]) == StackCost(pc, nodes, stack) + Cost(pc, nodes, path)
    ensures Cost(pc, nodes, path) > 0
  {
    PopPath(pc, cycles, r, stack, path);
    var kids := ChildrenOf(pc, path[|path| - 1]);
    assert kids[0..] == kids && kids[..0] == [];
  }

  ghost function AllChildren<T>(pc: map<T, seq<T>>): set<T> {
    set a, b | a in pc && b in pc[a] :: b
  }

  method FindCycles<T(==,!new)>(parentChildren: map<T, seq<T>>) returns (cycles: seq<seq<T>>)
    ensures EnumeratesCycles(parentChildren, cycles)
  {
    cycles := [];
    var visitedNodes: set<T> := {};
    ghost var roots, nodes := {}, AllChildren(parentChildren);
    var rest := parentChildren.Keys;
    assert Explored(parentChildren, cycles, roots, {}, visitedNodes) && Listed(parentChildren, cycles);
    assert parentChildren.Keys - rest == {};
    hide *;
    while rest != {}
      invariant rest <= parentChildren.Keys
      invariant Explored(parentChildren, cycles, roots, parentChildren.Keys - rest, visitedNodes)
      invariant Listed(parentChildren, cycles)
      decreases rest
    {
      var root :| root in rest;
      assert parentChildren.Keys - (rest - {root}) == parentChildren.Keys - rest + {root};
      rest := rest - {root};
      if root in visitedNodes {
        AlreadyVisited(parentChildren, cycles, roots, parentChildren.Keys - rest - {root}, visitedNodes, root);
        assert parentChildren.Keys - rest - {root} + {root} == parentChildren.Keys - rest;
        continue;
      }

      ghost var cycles0, visited0 := cycles, visitedNodes;
      var paths := [[root]];
      StartRoot(parentChildren, cycles, root);
      while paths != []
        invariant Pending(parentChildren, cycles, root, paths) && Stacked(parentChildren, root, paths)
        invariant Listed(parentChildren, cycles) && cycles0 <= cycles
        invariant forall v :: v in visitedNodes ==> v in visited0 || Reached(parentChildren, {root}, v)
        decreases StackCost(parentChildren, nodes, paths)
      {
        var path := paths[|paths| - 1];
        assert paths == paths[..|paths| - 1] + [path];
        paths := paths[..|paths| - 1];
        PopStack(parentChildren, nodes, cycles, root, paths, path);
        var parent := path[|path| - 1];
        if parent !in parentChildren {
          continue;
        }
        cycles, paths, visitedNodes :=
          ReadChildren(parentChildren, nodes, root, path, cycles, paths, visitedNodes);
      }
      RootDone(parentChildren, cycles0, cycles, roots, parentChildren.Keys - rest - {root},
               visited0, visitedNodes, root);
      assert parentChildren.Keys - rest - {root} + {root} == parentChildren.Keys - rest;
      roots := roots + {root};
    }
    assert parentChildren.Keys - rest == parentChildren.Keys;
    AllFound(parentChildren, cycles, roots, visitedNodes);
  }
}
