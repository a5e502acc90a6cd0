/** The type database of utils/print-introspected-doxygen.cc as a finite graph with named edges,
    and its repetition-free walks. */
module TypeWalks {
  import opened Common

  type Tid = nat

  datatype Checker = Pointer(pointee: Tid) | ObjectVector(item: Tid) | Other

  datatype Attribute = Attribute(name: string, checker: Checker)

  /** All type ids, their attributes and names, the registered ids in order, the pairs (a, b) with
      a.IsChildOf (b), and the id of the base class Object. */
  datatype Database = Database(
    tids: set<Tid>, attributes: map<Tid, seq<Attribute>>, names: map<Tid, string>,
    registered: seq<Tid>, childOf: set<(Tid, Tid)>, objectTid: Tid)

  datatype Edge = Edge(name: string, target: Tid)

  ghost predicate ValidDatabase(db: Database) {
    && db.attributes.Keys == db.tids && db.names.Keys == db.tids
    && AllTypes(db, db.registered)
    && (forall t, i :: t in db.tids && 0 <= i < |db.attributes[t]| ==>
          CheckerTargets(db.attributes[t][i].checker) <= db.tids)
  }

  ghost predicate AllTypes(db: Database, list: seq<Tid>) {
    forall i :: 0 <= i < |list| ==> list[i] in db.tids
  }

  ghost function CheckerTargets(c: Checker): set<Tid> {
    match c
    case Pointer(t) => {t}
    case ObjectVector(t) => {t}
    case Other => {}
  }

  ghost predicate ValidAggregates(db: Database, aggregates: seq<(Tid, Tid)>) {
    forall i :: 0 <= i < |aggregates| ==> aggregates[i].0 in db.tids && aggregates[i].1 in db.tids
  }

  // ------------------------------------------------------------------ edges

  /** Pointers other than to the base class, and vectors of objects. */
  ghost function AttributeEdges(db: Database, attributes: seq<Attribute>): seq<Edge> {
    if attributes == [] then []
    else
      var a := attributes[|attributes| - 1];
      AttributeEdges(db, attributes[..|attributes| - 1])
      + match a.checker {
        case Pointer(t) => if t == db.objectTid then [] else [Edge(a.name, t)]
        case ObjectVector(t) => [Edge(a.name + "/[i]", t)]
        case Other => []
      }
  }

  ghost function ChildEdges(db: Database, registered: seq<Tid>, tid: Tid): seq<Edge>
    requires ValidDatabase(db) && AllTypes(db, registered)
  {
    if registered == [] then []
    else
      var child := registered[|registered| - 1];
      ChildEdges(db, registered[..|registered| - 1], tid)
      + if (child, tid) in db.childOf then [Edge("$" + db.names[child], child)] else []
  }

  function OtherSide(pair: (Tid, Tid), tid: Tid): Tid {
    if pair.1 == tid then pair.0 else pair.1
  }

  ghost function AggregateEdges(db: Database, aggregates: seq<(Tid, Tid)>, tid: Tid): seq<Edge>
    requires ValidDatabase(db) && ValidAggregates(db, aggregates)
  {
    if aggregates == [] then []
    else
      var n := |aggregates| - 1;
      var pair := aggregates[n];
      AggregateEdges(db, aggregates[..n], tid)
      + if pair.0 == tid || pair.1 == tid then
          [Edge("$" + db.names[OtherSide(pair, tid)], OtherSide(pair, tid))]
        else []
  }

  ghost function Edges(db: Database, aggregates: seq<(Tid, Tid)>, tid: Tid): seq<Edge>
    requires ValidDatabase(db) && ValidAggregates(db, aggregates) && tid in db.tids
  {
    AttributeEdges(db, db.attributes[tid]) + ChildEdges(db, db.registered, tid)
    + AggregateEdges(db, aggregates, tid)
  }

  ghost predicate EdgesInside(nodes: set<Tid>, edges: seq<Edge>) {
    forall i :: 0 <= i < |edges| ==> edges[i].target in nodes
  }

  lemma {:induction false} AttributeEdgesInside(db: Database, attributes: seq<Attribute>)
    requires forall i :: 0 <= i < |attributes| ==> CheckerTargets(attributes[i].checker) <= db.tids
    ensures EdgesInside(db.tids, AttributeEdges(db, attributes))
  {
    if attributes != [] { AttributeEdgesInside(db, attributes[..|attributes| - 1]); }
  }

  lemma {:induction false} ChildEdgesInside(db: Database, registered: seq<Tid>, tid: Tid)
    requires ValidDatabase(db) && AllTypes(db, registered)
    ensures EdgesInside(db.tids, ChildEdges(db, registered, tid))
  {
    if registered != [] { ChildEdgesInside(db, registered[..|registered| - 1], tid); }
  }

  lemma {:induction false} AggregateEdgesInside(db: Database, aggregates: seq<(Tid, Tid)>, tid: Tid)
    requires ValidDatabase(db) && ValidAggregates(db, aggregates)
    ensures EdgesInside(db.tids, AggregateEdges(db, aggregates, tid))
  {
    if aggregates != [] { AggregateEdgesInside(db, aggregates[..|aggregates| - 1], tid); }
  }

  /** A finite graph: the edges out of every type, all leading to types. */
  datatype TypeGraph = TypeGraph(nodes: set<Tid>, edges: map<Tid, seq<Edge>>)

  ghost predicate ValidGraph(g: TypeGraph) {
    && g.edges.Keys == g.nodes
    && forall t, i :: t in g.nodes && 0 <= i < |g.edges[t]| ==> g.edges[t][i].target in g.nodes
  }

  ghost function GraphOf(db: Database, aggregates: seq<(Tid, Tid)>): TypeGraph
    requires ValidDatabase(db) && ValidAggregates(db, aggregates)
  {
    TypeGraph(db.tids, map t | t in db.tids :: Edges(db, aggregates, t))
  }

  lemma GraphOfValid(db: Database, aggregates: seq<(Tid, Tid)>)
    requires ValidDatabase(db) && ValidAggregates(db, aggregates)
    ensures ValidGraph(GraphOf(db, aggregates))
  {
    var g := GraphOf(db, aggregates);
    forall t, i | t in g.nodes && 0 <= i < |g.edges[t]| ensures g.edges[t][i].target in g.nodes {
      AttributeEdgesInside(db, db.attributes[t]);
      ChildEdgesInside(db, db.registered, t);
      AggregateEdgesInside(db, aggregates, t);
    }
  }

  // ------------------------------------------------------------------ walks

  /** A walk is given by the positions of the edges it takes; it is free when it comes to no type
      twice and to none of the types barred. */
  ghost predicate FreeWalk(g: TypeGraph, tid: Tid, barred: seq<Tid>, w: seq<nat>)
    requires ValidGraph(g) && tid in g.nodes
    decreases |w|
  {
    && tid !in barred
    && (w == [] || (w[0] < |g.edges[tid]| && FreeWalk(g, g.edges[tid][w[0]].target, barred + [tid], w[1..])))
  }

  ghost function WalkEnd(g: TypeGraph, tid: Tid, w: seq<nat>): (end: Tid)
    requires ValidGraph(g) && tid in g.nodes
    ensures end in g.nodes
    decreases |w|
  {
    if w == [] || w[0] >= |g.edges[tid]| then tid else WalkEnd(g, g.edges[tid][w[0]].target, w[1..])
  }

  ghost function WalkNames(g: TypeGraph, tid: Tid, w: seq<nat>): seq<string>
    requires ValidGraph(g) && tid in g.nodes
    decreases |w|
  {
    if w == [] || w[0] >= |g.edges[tid]| then []
    else [g.edges[tid][w[0]].name] + WalkNames(g, g.edges[tid][w[0]].target, w[1..])
  }

  /** The path as it is printed. */
  function PathString(path: seq<string>): string {
    if path == [] then "" else PathString(path[..|path| - 1]) + "/" + path[|path| - 1]
  }

  ghost function Open(nodes: set<Tid>, barred: seq<Tid>): set<Tid> {
    set x | x in nodes && x !in barred
  }

  lemma OneMoreBarred(nodes: set<Tid>, barred: seq<Tid>, tid: Tid)
    requires tid in nodes && tid !in barred
    ensures |Open(nodes, barred + [tid])| < |Open(nodes, barred)|
  {
    assert Open(nodes, barred + [tid]) == Open(nodes, barred) - {tid};
  }

  /** The outputs for everything that can be reached from tid, given the path to it. */
  ghost function Visits(g: TypeGraph, tid: Tid, path: seq<string>, barred: seq<Tid>): seq<(Tid, string)>
    requires ValidGraph(g) && tid in g.nodes
    decreases |Open(g.nodes, barred)|, 1, 0
  {
    if tid in barred then []
    else
      OneMoreBarred(g.nodes, barred, tid);
      [(tid, PathString(path))] + VisitsThrough(g, g.edges[tid], path, barred + [tid])
  }

  ghost function VisitsThrough(g: TypeGraph, edges: seq<Edge>, path: seq<string>, barred: seq<Tid>): seq<(Tid, string)>
    requires ValidGraph(g) && EdgesInside(g.nodes, edges)
    decreases |Open(g.nodes, barred)|, 2, |edges|
  {
    if edges == [] then []
    else
      var e := edges[|edges| - 1];
      VisitsThrough(g, edges[..|edges| - 1], path, barred) + Visits(g, e.target, path + [e.name], barred)
  }

  lemma {:induction false} VisitsThroughConcat(g: TypeGraph, a: seq<Edge>, b: seq<Edge>, path: seq<string>,
                                               barred: seq<Tid>)
    requires ValidGraph(g) && EdgesInside(g.nodes, a) && EdgesInside(g.nodes, b)
    ensures EdgesInside(g.nodes, a + b)
    ensures VisitsThrough(g, a + b, path, barred)
         == VisitsThrough(g, a, path, barred) + VisitsThrough(g, b, path, barred)
    decreases |b|
  {
    if b == [] {
      assert a + b == a;
    } else {
      var n := |b| - 1;
      VisitsThroughConcat(g, a, b[..n], path, barred);
      assert (a + b)[..|a + b| - 1] == a + b[..n] && (a + b)[|a + b| - 1] == b[n];
      hide Visits, EdgesInside;
    }
  }

  // ---------------------------------------- one output for each free walk

  ghost function Prefixed(k: nat, ws: seq<seq<nat>>): (r: seq<seq<nat>>)
    ensures |r| == |ws| && forall i :: 0 <= i < |ws| ==> r[i] == [k] + ws[i]
  {
    seq(|ws|, i requires 0 <= i < |ws| => [k] + ws[i])
  }

  /** A list of walks from tid, in the order of the outputs. */
  ghost function Walks(g: TypeGraph, tid: Tid, barred: seq<Tid>): seq<seq<nat>>
    requires ValidGraph(g) && tid in g.nodes
    decreases |Open(g.nodes, barred)|, 1, 0
  {
    if tid in barred then []
    else
      OneMoreBarred(g.nodes, barred, tid);
      [[]] + WalksThrough(g, g.edges[tid], barred + [tid])
  }

  ghost function WalksThrough(g: TypeGraph, edges: seq<Edge>, barred: seq<Tid>): seq<seq<nat>>
    requires ValidGraph(g) && EdgesInside(g.nodes, edges)
    decreases |Open(g.nodes, barred)|, 2, |edges|
  {
    if edges == [] then []
    else
      var n := |edges| - 1;
      WalksThrough(g, edges[..n], barred) + Prefixed(n, Walks(g, edges[n].target, barred))
  }

  /** Takes one of the given edges, and from there is free. */
  ghost predicate FreeThrough(g: TypeGraph, edges: seq<Edge>, barred: seq<Tid>, w: seq<nat>)
    requires ValidGraph(g) && EdgesInside(g.nodes, edges)
  {
    w != [] && w[0] < |edges| && FreeWalk(g, edges[w[0]].target, barred, w[1..])
  }

  lemma {:induction false} WalksAreFree(g: TypeGraph, tid: Tid, barred: seq<Tid>)
    requires ValidGraph(g) && tid in g.nodes
    ensures Distinct(Walks(g, tid, barred))
    ensures forall w :: w in Walks(g, tid, barred) <==> FreeWalk(g, tid, barred, w)
    decreases |Open(g.nodes, barred)|, 1, 0
  {
    if tid !in barred {
      OneMoreBarred(g.nodes, barred, tid);
      WalksThroughAreFree(g, g.edges[tid], barred + [tid]);
      var rest := WalksThrough(g, g.edges[tid], barred + [tid]);
      forall i | 0 <= i < |rest| ensures rest[i] != [] {
        assert rest[i] in rest;
        assert FreeThrough(g, g.edges[tid], barred + [tid], rest[i]);
      }
      hide WalksThrough;
      forall w ensures w in Walks(g, tid, barred) <==> FreeWalk(g, tid, barred, w) {
        assert w in Walks(g, tid, barred) <==> w == [] || w in rest;
        assert w in rest <==> FreeThrough(g, g.edges[tid], barred + [tid], w);
      }
    }
  }

  lemma {:induction false} WalksThroughAreFree(g: TypeGraph, edges: seq<Edge>, barred: seq<Tid>)
    requires ValidGraph(g) && EdgesInside(g.nodes, edges)
    ensures Distinct(WalksThrough(g, edges, barred))
    ensures forall w :: w in WalksThrough(g, edges, barred) <==> FreeThrough(g, edges, barred, w)
    decreases |Open(g.nodes, barred)|, 2, |edges|
  {
    if edges != [] {
      var n := |edges| - 1;
      var before, last := WalksThrough(g, edges[..n], barred), Walks(g, edges[n].target, barred);
      WalksThroughAreFree(g, edges[..n], barred);
      WalksAreFree(g, edges[n].target, barred);
      var whole := before + Prefixed(n, last);
      assert WalksThrough(g, edges, barred) == whole;
      hide WalksThrough, Walks;
      forall w ensures w in whole <==> FreeThrough(g, edges, barred, w) {
        InPrefixed(n, last, w);
        assert w in before <==> FreeThrough(g, edges[..n], barred, w);
        hide FreeWalk;
      }
      hide FreeWalk;
      forall i | 0 <= i < |before| ensures before[i] != [] && before[i][0] < n {
        assert before[i] in before;
        assert FreeThrough(g, edges[..n], barred, before[i]);
      }
      DistinctJoin(before, last, n);
    }
  }

  lemma InPrefixed(k: nat, ws: seq<seq<nat>>, w: seq<nat>)
    ensures w in Prefixed(k, ws) <==> w != [] && w[0] == k && w[1..] in ws
  {
    if w in Prefixed(k, ws) {
      var i :| 0 <= i < |ws| && Prefixed(k, ws)[i] == w;
      assert w[1..] == ws[i];
    }
    if w != [] && w[0] == k && w[1..] in ws {
      var i :| 0 <= i < |ws| && ws[i] == w[1..];
      assert Prefixed(k, ws)[i] == w;
    }
  }

  lemma DistinctJoin(before: seq<seq<nat>>, last: seq<seq<nat>>, n: nat)
    requires Distinct(before) && Distinct(last)
    requires forall i :: 0 <= i < |before| ==> before[i] != [] && before[i][0] < n
    ensures Distinct(before + Prefixed(n, last))
  {
    var whole := before + Prefixed(n, last);
    forall i, j | 0 <= i < j < |whole| ensures whole[i] != whole[j] {
      if j >= |before| {
        assert whole[j] == [n] + last[j - |before|];
        if i >= |before| {
          assert whole[i] == [n] + last[i - |before|];
          assert whole[i][1..] == last[i - |before|] && whole[j][1..] == last[j - |before|];
        }
      }
    }
  }

  /** The order of a dictionary: a beginning comes first, and then the smaller position. */
  ghost predicate Sooner(v: seq<nat>, w: seq<nat>) {
    w != [] && (v == [] || v[0] < w[0] || (v[0] == w[0] && Sooner(v[1..], w[1..])))
  }

  ghost predicate InTurn(ws: seq<seq<nat>>) {
    forall i, j :: 0 <= i < j < |ws| ==> Sooner(ws[i], ws[j])
  }

  /** The walks, and so the outputs, are in that order: a type before what is reached from it, and what is
      reached by an earlier edge before what is reached by a later one. */
  lemma {:induction false} WalksInTurn(g: TypeGraph, tid: Tid, barred: seq<Tid>)
    requires ValidGraph(g) && tid in g.nodes
    ensures InTurn(Walks(g, tid, barred))
    decreases |Open(g.nodes, barred)|, 1, 0
  {
    if tid !in barred {
      OneMoreBarred(g.nodes, barred, tid);
      ThroughInTurn(g, g.edges[tid], barred + [tid]);
      EmptyFirst(WalksThrough(g, g.edges[tid], barred + [tid]), |g.edges[tid]|);
      hide WalksThrough, InTurn;
    }
  }

  ghost predicate FirstsBelow(ws: seq<seq<nat>>, n: nat) {
    forall i :: 0 <= i < |ws| ==> ws[i] != [] && ws[i][0] < n
  }

  lemma EmptyFirst(ws: seq<seq<nat>>, n: nat)
    requires InTurn(ws) && FirstsBelow(ws, n)
    ensures InTurn([[]] + ws)
  {
  }

  lemma {:induction false} ThroughInTurn(g: TypeGraph, edges: seq<Edge>, barred: seq<Tid>)
    requires ValidGraph(g) && EdgesInside(g.nodes, edges)
    ensures InTurn(WalksThrough(g, edges, barred)) && FirstsBelow(WalksThrough(g, edges, barred), |edges|)
    decreases |Open(g.nodes, barred)|, 2, |edges|
  {
    if edges != [] {
      var n := |edges| - 1;
      ThroughInTurn(g, edges[..n], barred);
      WalksInTurn(g, edges[n].target, barred);
      JoinInTurn(WalksThrough(g, edges[..n], barred), Walks(g, edges[n].target, barred), n);
      hide Walks, InTurn, FirstsBelow;
    }
  }

  lemma JoinInTurn(before: seq<seq<nat>>, last: seq<seq<nat>>, n: nat)
    requires InTurn(before) && FirstsBelow(before, n) && InTurn(last)
    ensures InTurn(before + Prefixed(n, last)) && FirstsBelow(before + Prefixed(n, last), n + 1)
  {
    var whole := before + Prefixed(n, last);
    forall i, j | 0 <= i < j < |whole| ensures Sooner(whole[i], whole[j]) {
      if i >= |before| {
        assert whole[i][1..] == last[i - |before|] && whole[j][1..] == last[j - |before|];
        assert Sooner(last[i - |before|], last[j - |before|]);
      }
    }
  }

  /** The output for a walk: the type it ends in, and the path with the walk's names added. */
  ghost function OutputOf(g: TypeGraph, tid: Tid, path: seq<string>, w: seq<nat>): (Tid, string)
    requires ValidGraph(g) && tid in g.nodes
  {
    (WalkEnd(g, tid, w), PathString(path + WalkNames(g, tid, w)))
  }

  ghost function OutputThrough(g: TypeGraph, edges: seq<Edge>, path: seq<string>, w: seq<nat>): (Tid, string)
    requires ValidGraph(g) && EdgesInside(g.nodes, edges)
    requires w != [] && w[0] < |edges|
  {
    OutputOf(g, edges[w[0]].target, path + [edges[w[0]].name], w[1..])
  }

  lemma OutputStep(g: TypeGraph, tid: Tid, path: seq<string>, w: seq<nat>)
    requires ValidGraph(g) && tid in g.nodes && w != [] && w[0] < |g.edges[tid]|
    ensures OutputOf(g, tid, path, w) == OutputThrough(g, g.edges[tid], path, w)
  {
    var e := g.edges[tid][w[0]];
    assert path + WalkNames(g, tid, w) == path + [e.name] + WalkNames(g, e.target, w[1..]);
  }

  /** The i-th output is that of the i-th walk. */
  lemma {:induction false} VisitsFollowWalks(g: TypeGraph, tid: Tid, path: seq<string>, barred: seq<Tid>)
    requires ValidGraph(g) && tid in g.nodes
    ensures |Visits(g, tid, path, barred)| == |Walks(g, tid, barred)|
    ensures forall i :: 0 <= i < |Walks(g, tid, barred)| ==>
      Visits(g, tid, path, barred)[i] == OutputOf(g, tid, path, Walks(g, tid, barred)[i])
    decreases |Open(g.nodes, barred)|, 1, 0
  {
    if tid !in barred {
      OneMoreBarred(g.nodes, barred, tid);
      var edges := g.edges[tid];
      var rest := WalksThrough(g, edges, barred + [tid]);
      ThroughFollowsWalks(g, edges, path, barred + [tid]);
      assert path + [] == path;
      hide WalksThrough, VisitsThrough;
      forall i | 0 <= i < |Walks(g, tid, barred)|
        ensures Visits(g, tid, path, barred)[i] == OutputOf(g, tid, path, Walks(g, tid, barred)[i])
      {
        if i > 0 {
          assert Walks(g, tid, barred)[i] == rest[i - 1];
          OutputStep(g, tid, path, rest[i - 1]);
        }
      }
    }
  }

  lemma {:induction false} ThroughFollowsWalks(g: TypeGraph, edges: seq<Edge>, path: seq<string>, barred: seq<Tid>)
    requires ValidGraph(g) && EdgesInside(g.nodes, edges)
    ensures |VisitsThrough(g, edges, path, barred)| == |WalksThrough(g, edges, barred)|
    ensures forall i :: 0 <= i < |WalksThrough(g, edges, barred)| ==>
      var w := WalksThrough(g, edges, barred)[i];
      w != [] && w[0] < |edges| && VisitsThrough(g, edges, path, barred)[i] == OutputThrough(g, edges, path, w)
    decreases |Open(g.nodes, barred)|, 2, |edges|
  {
    if edges != [] {
      var n := |edges| - 1;
      var e := edges[n];
      var before, last := WalksThrough(g, edges[..n], barred), Walks(g, e.target, barred);
      ThroughFollowsWalks(g, edges[..n], path, barred);
      VisitsFollowWalks(g, e.target, path + [e.name], barred);
      var whole := before + Prefixed(n, last);
      assert WalksThrough(g, edges, barred) == whole;
      var out := VisitsThrough(g, edges[..n], path, barred) + Visits(g, e.target, path + [e.name], barred);
      assert VisitsThrough(g, edges, path, barred) == out;
      hide WalksThrough, VisitsThrough, Visits, Walks, OutputOf;
      forall i | 0 <= i < |whole|
        ensures whole[i] != [] && whole[i][0] < |edges| && out[i] == OutputThrough(g, edges, path, whole[i])
      {
        if i >= |before| {
          assert whole[i] == [n] + last[i - |before|];
          assert whole[i][1..] == last[i - |before|];
        }
      }
    }
  }

  /** Every position names an edge out of the type the walk has come to. */
  ghost predicate EdgeWalk(g: TypeGraph, tid: Tid, w: seq<nat>)
    requires ValidGraph(g) && tid in g.nodes
    decreases |w|
  {
    w == [] || (w[0] < |g.edges[tid]| && EdgeWalk(g, g.edges[tid][w[0]].target, w[1..]))
  }

  ghost function WalkTypes(g: TypeGraph, tid: Tid, w: seq<nat>): seq<Tid>
    requires ValidGraph(g) && tid in g.nodes
    decreases |w|
  {
    if w == [] || w[0] >= |g.edges[tid]| then [tid] else [tid] + WalkTypes(g, g.edges[tid][w[0]].target, w[1..])
  }

  ghost predicate NoneBarred(s: seq<Tid>, barred: seq<Tid>) {
    forall i :: 0 <= i < |s| ==> s[i] !in barred
  }

  /** A free walk is an edge walk whose types are all different, and none of them barred. */
  lemma {:induction false} FreeMeansNoRepeats(g: TypeGraph, tid: Tid, barred: seq<Tid>, w: seq<nat>)
    requires ValidGraph(g) && tid in g.nodes
    ensures FreeWalk(g, tid, barred, w)
       <==> EdgeWalk(g, tid, w) && Distinct(WalkTypes(g, tid, w))
            && NoneBarred(WalkTypes(g, tid, w), barred)
    decreases |w|
  {
    if w != [] && w[0] < |g.edges[tid]| {
      var next := g.edges[tid][w[0]].target;
      var rest := WalkTypes(g, next, w[1..]);
      FreeMeansNoRepeats(g, next, barred + [tid], w[1..]);
      var all := WalkTypes(g, tid, w);
      assert all == [tid] + rest;
      hide WalkTypes;
      HeadApart(tid, rest, barred);
    } else {
      assert WalkTypes(g, tid, w) == [tid] && [tid][0] == tid;
      hide WalkTypes;
    }
  }

  lemma HeadApart(tid: Tid, rest: seq<Tid>, barred: seq<Tid>)
    ensures (tid !in barred && Distinct(rest) && forall i :: 0 <= i < |rest| ==> rest[i] !in barred + [tid])
       <==> Distinct([tid] + rest) && forall i :: 0 <= i < |[tid] + rest| ==> ([tid] + rest)[i] !in barred
  {
    var all := [tid] + rest;
    assert all[0] == tid && forall i :: 0 <= i < |rest| ==> all[i + 1] == rest[i];
    if Distinct(all) && forall i :: 0 <= i < |all| ==> all[i] !in barred {
      forall i, j | 0 <= i < j < |rest| ensures rest[i] != rest[j] {
        assert all[i + 1] != all[j + 1];
      }
      forall i | 0 <= i < |rest| ensures rest[i] !in barred + [tid] {
        assert all[0] != all[i + 1] && all[i + 1] !in barred;
      }
    }
  }

  /** Follows edges, comes to no type twice and to none barred. */
  ghost predicate RepetitionFree(g: TypeGraph, tid: Tid, barred: seq<Tid>, w: seq<nat>)
    requires ValidGraph(g) && tid in g.nodes
  {
    EdgeWalk(g, tid, w) && Distinct(WalkTypes(g, tid, w)) && NoneBarred(WalkTypes(g, tid, w), barred)
  }

  /** The outputs are exactly those of the repetition-free walks, one for each walk. */
  lemma OneOutputPerWalk(g: TypeGraph, tid: Tid, path: seq<string>, barred: seq<Tid>) returns (ws: seq<seq<nat>>)
    requires ValidGraph(g) && tid in g.nodes
    ensures Distinct(ws) && forall w :: w in ws <==> RepetitionFree(g, tid, barred, w)
    ensures |Visits(g, tid, path, barred)| == |ws|
    ensures forall i :: 0 <= i < |ws| ==> Visits(g, tid, path, barred)[i] == OutputOf(g, tid, path, ws[i])
  {
    ws := Walks(g, tid, barred);
    WalksAreFree(g, tid, barred);
    VisitsFollowWalks(g, tid, path, barred);
    hide Walks, Visits, WalkTypes, EdgeWalk, FreeWalk, OutputOf;
    forall w ensures w in ws <==> RepetitionFree(g, tid, barred, w) {
      FreeMeansNoRepeats(g, tid, barred, w);
    }
  }

  // ------------------------------------------------------------- duplicates

  /** Two different walks that come to the same type by the same printed path. */
  ghost predicate SameOutput(g: TypeGraph, tid: Tid, path: seq<string>, barred: seq<Tid>, v: seq<nat>, w: seq<nat>)
    requires ValidGraph(g) && tid in g.nodes
  {
    && v != w && RepetitionFree(g, tid, barred, v) && RepetitionFree(g, tid, barred, w)
    && WalkEnd(g, tid, v) == WalkEnd(g, tid, w)
    && PathString(path + WalkNames(g, tid, v)) == PathString(path + WalkNames(g, tid, w))
  }

  /** No output is there twice exactly when no two repetition-free walks have the same output. */
  lemma DuplicatesExactlyWhen(g: TypeGraph, tid: Tid, path: seq<string>, barred: seq<Tid>)
    requires ValidGraph(g) && tid in g.nodes
    ensures Distinct(Visits(g, tid, path, barred)) <==> !exists v, w :: SameOutput(g, tid, path, barred, v, w)
  {
    var ws := OneOutputPerWalk(g, tid, path, barred);
    var out := Visits(g, tid, path, barred);
    hide Visits, RepetitionFree, WalkEnd, WalkNames, PathString;
    if v, w :| SameOutput(g, tid, path, barred, v, w) {
      var i :| 0 <= i < |ws| && ws[i] == v;
      var j :| 0 <= j < |ws| && ws[j] == w;
      assert out[i] == out[j] && i != j;
    }
    if i, j :| 0 <= i < j < |out| && out[i] == out[j] {
      assert ws[i] in ws && ws[j] in ws;
      assert SameOutput(g, tid, path, barred, ws[i], ws[j]);
    }
  }

  // ------------------------------------- duplicates where paths are readable

  /** What names add to a path as it is printed. */
  ghost function Printed(names: seq<string>): string {
    if names == [] then "" else "/" + names[0] + Printed(names[1..])
  }

  lemma {:induction false} PathIsPrinted(path: seq<string>, names: seq<string>)
    ensures PathString(path + names) == PathString(path) + Printed(names)
    decreases |names|
  {
    if names == [] {
      assert path + names == path;
    } else {
      assert path + names == path + [names[0]] + names[1..];
      PathIsPrinted(path + [names[0]], names[1..]);
    }
  }

  /** A name can be told from what is printed: no edge out of a type prints as a beginning of another. */
  ghost predicate Readable(g: TypeGraph)
    requires ValidGraph(g)
  {
    forall t, i, j | t in g.nodes && 0 <= i < |g.edges[t]| && 0 <= j < |g.edges[t]| :: g.edges[t][i] == g.edges[t][j]
      || !(g.edges[t][i].name + "/" <= g.edges[t][j].name + "/")
  }

  /** Comes, without repetition, to a type with two equal edges that both lead on to a new type. */
  ghost predicate EndsInTwin(g: TypeGraph, tid: Tid, barred: seq<Tid>, u: seq<nat>, p: nat, q: nat)
    requires ValidGraph(g) && tid in g.nodes
  {
    var edges := g.edges[WalkEnd(g, tid, u)];
    && FreeWalk(g, tid, barred, u)
    && p < q < |edges| && edges[p] == edges[q]
    && edges[p].target !in barred && edges[p].target !in WalkTypes(g, tid, u)
  }

  /** One step more. */
  lemma {:induction false} WalkOn(g: TypeGraph, tid: Tid, barred: seq<Tid>, u: seq<nat>, p: nat)
    requires ValidGraph(g) && tid in g.nodes && FreeWalk(g, tid, barred, u)
    requires p < |g.edges[WalkEnd(g, tid, u)]|
    requires var e := g.edges[WalkEnd(g, tid, u)][p]; e.target !in barred && e.target !in WalkTypes(g, tid, u)
    ensures FreeWalk(g, tid, barred, u + [p])
    ensures var e := g.edges[WalkEnd(g, tid, u)][p];
      WalkEnd(g, tid, u + [p]) == e.target && WalkNames(g, tid, u + [p]) == WalkNames(g, tid, u) + [e.name]
    decreases |u|
  {
    if u == [] {
      assert [p][1..] == [];
    } else {
      var next := g.edges[tid][u[0]].target;
      assert (u + [p])[1..] == u[1..] + [p];
      WalkOn(g, next, barred + [tid], u[1..], p);
    }
  }

  lemma TwinsRepeat(g: TypeGraph, tid: Tid, path: seq<string>, barred: seq<Tid>, u: seq<nat>, p: nat, q: nat)
    requires ValidGraph(g) && tid in g.nodes && EndsInTwin(g, tid, barred, u, p, q)
    ensures SameOutput(g, tid, path, barred, u + [p], u + [q])
  {
    WalkOn(g, tid, barred, u, p);
    WalkOn(g, tid, barred, u, q);
    assert (u + [p])[|u|] != (u + [q])[|u|];
    FreeMeansNoRepeats(g, tid, barred, u + [p]);
    FreeMeansNoRepeats(g, tid, barred, u + [q]);
    hide FreeWalk, EdgeWalk, WalkTypes, WalkEnd, WalkNames;
  }

  lemma FirstName(a: string, b: string, s: string, t: string)
    requires s == "" || s[0] == '/'
    requires t == "" || t[0] == '/'
    requires a + s == b + t && |a| <= |b|
    ensures a + "/" <= b + "/"
  {
    assert a == (a + s)[..|a|] && b == (b + t)[..|b|];
    if |a| < |b| {
      assert (a + s)[|a|] == '/' && (b + t)[|a|] == b[|a|];
    }
  }

  /** Edges of the same type whose printed continuations agree are equal. */
  lemma SameFirstEdge(g: TypeGraph, tid: Tid, i: nat, j: nat, s: string, t: string)
    requires ValidGraph(g) && Readable(g) && tid in g.nodes
    requires i < |g.edges[tid]| && j < |g.edges[tid]|
    requires s == "" || s[0] == '/'
    requires t == "" || t[0] == '/'
    requires "/" + g.edges[tid][i].name + s == "/" + g.edges[tid][j].name + t
    ensures g.edges[tid][i] == g.edges[tid][j] && s == t
  {
    var a, b := g.edges[tid][i].name, g.edges[tid][j].name;
    assert ("/" + a + s)[1..] == a + s && ("/" + b + t)[1..] == b + t;
    if |a| <= |b| { FirstName(a, b, s, t); } else { FirstName(b, a, t, s); }
    assert a == b;
    assert (a + s)[|a|..] == s && (b + t)[|b|..] == t;
  }

  /** Two walks with the same output part at a type with two equal edges. */
  lemma {:induction false} PartAtTwin(g: TypeGraph, tid: Tid, barred: seq<Tid>, v: seq<nat>, w: seq<nat>)
    returns (u: seq<nat>, p: nat, q: nat)
    requires ValidGraph(g) && Readable(g) && tid in g.nodes && v != w
    requires FreeWalk(g, tid, barred, v) && FreeWalk(g, tid, barred, w)
    requires Printed(WalkNames(g, tid, v)) == Printed(WalkNames(g, tid, w))
    ensures EndsInTwin(g, tid, barred, u, p, q)
    decreases |v|
  {
    assert v != [] && w != [];
    var i, j, edges := v[0], w[0], g.edges[tid];
    SameFirstEdge(g, tid, i, j, Printed(WalkNames(g, edges[i].target, v[1..])),
                  Printed(WalkNames(g, edges[j].target, w[1..])));
    if i == j {
      assert v == [i] + v[1..] && w == [j] + w[1..];
      u, p, q := PartAtTwin(g, edges[i].target, barred + [tid], v[1..], w[1..]);
      TwinBefore(g, tid, barred, i, u, p, q);
      u := [i] + u;
    } else {
      u, p, q := [], if i < j then i else j, if i < j then j else i;
    }
  }

  lemma TwinBefore(g: TypeGraph, tid: Tid, barred: seq<Tid>, i: nat, u: seq<nat>, p: nat, q: nat)
    requires ValidGraph(g) && tid in g.nodes && tid !in barred && i < |g.edges[tid]|
    requires EndsInTwin(g, g.edges[tid][i].target, barred + [tid], u, p, q)
    ensures EndsInTwin(g, tid, barred, [i] + u, p, q)
  {
  }

  /** Where paths are readable, no output is there twice exactly when no walk comes to a type with two
      equal edges to a new type. */
  lemma ReadableDuplicatesExactlyWhen(g: TypeGraph, tid: Tid, path: seq<string>, barred: seq<Tid>)
    requires ValidGraph(g) && tid in g.nodes && Readable(g)
    ensures Distinct(Visits(g, tid, path, barred)) <==> !exists u, p, q :: EndsInTwin(g, tid, barred, u, p, q)
  {
    DuplicatesExactlyWhen(g, tid, path, barred);
    hide *;
    if u, p, q :| EndsInTwin(g, tid, barred, u, p, q) {
      TwinsRepeat(g, tid, path, barred, u, p, q);
    }
    if v, w :| SameOutput(g, tid, path, barred, v, w) {
      SamePrinted(g, tid, path, barred, v, w);
      var u, p, q := PartAtTwin(g, tid, barred, v, w);
    }
  }

  lemma SamePrinted(g: TypeGraph, tid: Tid, path: seq<string>, barred: seq<Tid>, v: seq<nat>, w: seq<nat>)
    requires ValidGraph(g) && tid in g.nodes && SameOutput(g, tid, path, barred, v, w)
    ensures v != w && FreeWalk(g, tid, barred, v) && FreeWalk(g, tid, barred, w)
    ensures Printed(WalkNames(g, tid, v)) == Printed(WalkNames(g, tid, w))
  {
    FreeMeansNoRepeats(g, tid, barred, v);
    FreeMeansNoRepeats(g, tid, barred, w);
    PathIsPrinted(path, WalkNames(g, tid, v));
    PathIsPrinted(path, WalkNames(g, tid, w));
    var a, b, s := Printed(WalkNames(g, tid, v)), Printed(WalkNames(g, tid, w)), PathString(path);
    hide FreeWalk, EdgeWalk, WalkTypes, WalkEnd, WalkNames, Printed, PathString;
    assert (s + a)[|s|..] == a && (s + b)[|s|..] == b;
  }

  ghost function SlashGraph(): (g: TypeGraph)
    ensures ValidGraph(g)
  {
    TypeGraph({0, 1, 2}, map[0 := [Edge("a", 1), Edge("a/b", 2)], 1 := [Edge("b", 2)], 2 := []])
  }

  lemma SlashOutputs()
    ensures SameOutput(SlashGraph(), 0, [], [], [0, 0], [1])
  {
    var g := SlashGraph();
    assert [0, 0][1..] == [0] && [0][1..] == [] && [1][1..] == [];
    assert WalkEnd(g, 2, []) == 2 && WalkNames(g, 2, []) == [] && WalkTypes(g, 2, []) == [2];
    assert WalkEnd(g, 1, [0]) == 2 && WalkNames(g, 1, [0]) == ["b"] && WalkTypes(g, 1, [0]) == [1, 2];
    PathIsPrinted([], WalkNames(g, 0, [0, 0]));
    PathIsPrinted([], WalkNames(g, 0, [1]));
    assert ["a", "b"][1..] == ["b"] && ["b"][1..] == [] && ["a/b"][1..] == [];
    assert Printed(["b"]) == "/b" && Printed(["a", "b"]) == "/a/b" && Printed(["a/b"]) == "/a/b";
    hide PathString;
  }

  lemma NoTwinEdges(g: TypeGraph, tid: Tid, barred: seq<Tid>)
    requires ValidGraph(g) && tid in g.nodes
    requires forall t :: t in g.nodes ==> Distinct(g.edges[t])
    ensures !exists u, p, q :: EndsInTwin(g, tid, barred, u, p, q)
  {
  }

  lemma NotReadable(g: TypeGraph, t: Tid, i: nat, j: nat)
    requires ValidGraph(g) && t in g.nodes && i < |g.edges[t]| && j < |g.edges[t]| && g.edges[t][i] != g.edges[t][j]
    requires g.edges[t][i].name + "/" <= g.edges[t][j].name + "/"
    ensures !Readable(g)
  {
  }

  lemma SlashEdges()
    ensures 0 in SlashGraph().nodes && forall t :: t in SlashGraph().nodes ==> Distinct(SlashGraph().edges[t])
    ensures !Readable(SlashGraph())
  {
    var g := SlashGraph();
    assert g.edges[0][0].name + "/" == "a/" && g.edges[0][1].name + "/" == "a/b/";
    NotReadable(g, 0, 0, 1);
    hide Readable;
  }

  /** Without that, a slash in a name can give one output twice though no two edges are equal. */
  lemma UnreadableNames()
    ensures !Readable(SlashGraph()) && !Distinct(Visits(SlashGraph(), 0, [], []))
    ensures !exists u, p, q :: EndsInTwin(SlashGraph(), 0, [], u, p, q)
  {
    hide *;
    SlashEdges();
    SlashOutputs();
    DuplicatesExactlyWhen(SlashGraph(), 0, [], []);
    NoTwinEdges(SlashGraph(), 0, []);
  }

  lemma {:induction false} MoreAggregates(db: Database, aggregates: seq<(Tid, Tid)>, i: nat, j: nat, tid: Tid)
    requires ValidDatabase(db) && ValidAggregates(db, aggregates) && i <= j <= |aggregates|
    ensures AggregateEdges(db, aggregates[..i], tid) <= AggregateEdges(db, aggregates[..j], tid)
    decreases j
  {
    if i < j {
      MoreAggregates(db, aggregates, i, j - 1, tid);
      assert aggregates[..j][..j - 1] == aggregates[..j - 1];
    }
  }

  /** The edge of an aggregation pair, and where it is among the edges out of one of its types. */
  lemma AggregateEdgeAt(db: Database, aggregates: seq<(Tid, Tid)>, i: nat, tid: Tid)
    requires ValidDatabase(db) && ValidAggregates(db, aggregates) && i < |aggregates|
    requires aggregates[i].0 == tid || aggregates[i].1 == tid
    ensures
      var p, other := |AggregateEdges(db, aggregates[..i], tid)|, OtherSide(aggregates[i], tid);
      && p < |AggregateEdges(db, aggregates[..i + 1], tid)| <= |AggregateEdges(db, aggregates, tid)|
      && other in db.tids && other in db.names
      && AggregateEdges(db, aggregates, tid)[p] == Edge("$" + db.names[other], other)
  {
    MoreAggregates(db, aggregates, i + 1, |aggregates|, tid);
    assert aggregates[..i + 1][..i] == aggregates[..i] && aggregates[..|aggregates|] == aggregates;
  }

  /** Two edges with the same name to the same type give the same output twice. */
  lemma TwoEdges(g: TypeGraph, tid: Tid, path: seq<string>, barred: seq<Tid>, p: nat, q: nat)
    requires ValidGraph(g) && tid in g.nodes && tid !in barred
    requires p < q < |g.edges[tid]| && g.edges[tid][p] == g.edges[tid][q]
    requires g.edges[tid][p].target != tid && g.edges[tid][p].target !in barred
    ensures !Distinct(Visits(g, tid, path, barred))
  {
    assert EndsInTwin(g, tid, barred, [], p, q);
    TwinsRepeat(g, tid, path, barred, [], p, q);
    DuplicatesExactlyWhen(g, tid, path, barred);
    hide *;
  }

  lemma RepeatedEdge(db: Database, aggregates: seq<(Tid, Tid)>, i: nat, j: nat, tid: Tid) returns (p: nat, q: nat)
    requires ValidDatabase(db) && ValidAggregates(db, aggregates) && tid in db.tids
    requires i < j < |aggregates| && aggregates[i] == aggregates[j]
    requires aggregates[i].0 == tid || aggregates[i].1 == tid
    ensures p < q < |Edges(db, aggregates, tid)|
    ensures Edges(db, aggregates, tid)[p] == Edges(db, aggregates, tid)[q]
    ensures Edges(db, aggregates, tid)[p].target == OtherSide(aggregates[i], tid)
  {
    PrefixesValid(db, aggregates, i, j);
    hide *;
    AggregateEdgeAt(db, aggregates, i, tid);
    AggregateEdgeAt(db, aggregates, j, tid);
    MoreAggregates(db, aggregates, i + 1, j, tid);
    p, q := |AggregateEdges(db, aggregates[..i], tid)|, |AggregateEdges(db, aggregates[..j], tid)|;
    var n := |Edges(db, aggregates, tid)| - |AggregateEdges(db, aggregates, tid)|;
    p, q := n + p, n + q;
  }

  lemma PrefixesValid(db: Database, aggregates: seq<(Tid, Tid)>, i: nat, j: nat)
    requires ValidAggregates(db, aggregates) && i < j < |aggregates|
    ensures ValidAggregates(db, aggregates[..i]) && ValidAggregates(db, aggregates[..j])
    ensures ValidAggregates(db, aggregates[..i + 1])
  {
  }

  /** An aggregation pair that is recorded twice gives the same output twice, as one pair of the
      program itself does. */
  lemma RepeatedAggregation(db: Database, aggregates: seq<(Tid, Tid)>, i: nat, j: nat, tid: Tid, path: seq<string>,
                            barred: seq<Tid>)
    requires ValidDatabase(db) && ValidAggregates(db, aggregates) && tid in db.tids
    requires i < j < |aggregates| && aggregates[i] == aggregates[j]
    requires aggregates[i].0 == tid || aggregates[i].1 == tid
    requires tid !in barred && OtherSide(aggregates[i], tid) != tid && OtherSide(aggregates[i], tid) !in barred
    ensures ValidGraph(GraphOf(db, aggregates)) && tid in GraphOf(db, aggregates).nodes
    ensures !Distinct(Visits(GraphOf(db, aggregates), tid, path, barred))
  {
    GraphOfValid(db, aggregates);
    hide *;
    var p, q := RepeatedEdge(db, aggregates, i, j, tid);
    TwoEdges(GraphOf(db, aggregates), tid, path, barred, p, q);
  }
}
