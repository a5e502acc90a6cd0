/** The gathering of configuration paths in utils/print-introspected-doxygen.cc. */
module Gather {
  import opened TypeWalks
  import opened TypeEdges

  class StaticInformation {
    const db: Database
    var output: seq<(Tid, string)>
    var currentPath: seq<string>
    var alreadyProcessed: seq<Tid>
    var aggregates: seq<(Tid, Tid)>
    var noTids: seq<string>

    ghost predicate Valid()
      reads `aggregates
    {
      ValidDatabase(db) && ValidAggregates(db, aggregates)
    }

    ghost function Graph(): (g: TypeGraph)
      reads `aggregates
      requires Valid()
      ensures ValidGraph(g) && g.nodes == db.tids
    {
      GraphOfValid(db, aggregates);
      GraphOf(db, aggregates)
    }

    constructor (db: Database)
      requires ValidDatabase(db)
      ensures Valid() && this.db == db
      ensures output == [] && currentPath == [] && alreadyProcessed == [] && aggregates == [] && noTids == []
    {
      this.db := db;
      output, currentPath, alreadyProcessed, aggregates, noTids := [], [], [], [], [];
    }

    /** The two names are looked up in turn; a name without a type is only noted. */
    method RecordAggregationInfo(a: string, b: string)
      requires Valid()
      modifies this
      ensures Valid() && output == old(output)
      ensures currentPath == old(currentPath) && alreadyProcessed == old(alreadyProcessed)
      ensures
        if !Named(a) then aggregates == old(aggregates) && noTids == old(noTids) + [a]
        else if !Named(b) then aggregates == old(aggregates) && noTids == old(noTids) + [b]
        else
          && noTids == old(noTids)
          && |aggregates| == |old(aggregates)| + 1 && aggregates[..|old(aggregates)|] == old(aggregates)
          && Joins(aggregates[|old(aggregates)|], a, b)
    {
      if !Named(a) {
        noTids := noTids + [a];
        return;
      }
      var aTid :| aTid in db.tids && db.names[aTid] == a;
      if !Named(b) {
        noTids := noTids + [b];
        return;
      }
      var bTid :| bTid in db.tids && db.names[bTid] == b;
      aggregates := aggregates + [(aTid, bTid)];
    }

    predicate Named(name: string)
      requires ValidDatabase(db)
    {
      exists t :: t in db.tids && db.names[t] == name
    }

    ghost predicate Joins(pair: (Tid, Tid), a: string, b: string)
      requires ValidDatabase(db)
    {
      pair.0 in db.tids && db.names[pair.0] == a && pair.1 in db.tids && db.names[pair.1] == b
    }

    method GetCurrentPath() returns (s: string)
      ensures s == PathString(currentPath)
    {
      s := "";
      for i := 0 to |currentPath|
        invariant s == PathString(currentPath[..i])
      {
        assert currentPath[..i + 1][..i] == currentPath[..i];
        s := s + "/" + currentPath[i];
        assert PathString(currentPath[..i]) + "/" + currentPath[i] == PathString(currentPath[..i + 1]);
      }
      assert currentPath[..|currentPath|] == currentPath;
    }

    method RecordOutput(tid: Tid)
      modifies this`output
      ensures output == old(output) + [(tid, PathString(currentPath))]
    {
      var path := GetCurrentPath();
      output := output + [(tid, path)];
    }

    method HasAlreadyBeenProcessed(tid: Tid) returns (found: bool)
      ensures found <==> tid in alreadyProcessed
    {
      for i := 0 to |alreadyProcessed|
        invariant tid !in alreadyProcessed[..i]
      {
        if alreadyProcessed[i] == tid {
          return true;
        }
      }
      found := false;
    }

    /** Appends one output for every walk from tid that meets no type twice, and puts both stacks back. */
    method DoGather(tid: Tid)
      requires Valid() && tid in db.tids
      modifies this`output, this`currentPath, this`alreadyProcessed
      ensures output == old(output) + Visits(Graph(), tid, old(currentPath), old(alreadyProcessed))
      ensures currentPath == old(currentPath) && alreadyProcessed == old(alreadyProcessed)
      decreases |Open(db.tids, alreadyProcessed)|, 0
    {
      hide *;
      var seen := HasAlreadyBeenProcessed(tid);
      if seen {
        NothingWhenBarred(tid, currentPath, alreadyProcessed);
        assert output + [] == output;
        return;
      }
      EdgesAreInside(tid);
      VisitsInThree(tid, currentPath, alreadyProcessed, output);
      OneMoreBarred(db.tids, alreadyProcessed, tid);
      RecordOutput(tid);
      GatherAttributes(tid);
      GatherChildren(tid);
      GatherAggregates(tid);
    }

    lemma NothingWhenBarred(tid: Tid, path: seq<string>, barred: seq<Tid>)
      requires Valid() && tid in db.tids && tid in barred
      ensures Visits(Graph(), tid, path, barred) == []
    {
    }

    lemma EdgesAreInside(tid: Tid)
      requires Valid() && tid in db.tids
      ensures ValidDatabase(db) && ValidAggregates(db, aggregates)
      ensures tid in db.attributes && EdgesInside(db.tids, AttributeEdges(db, db.attributes[tid]))
      ensures AllTypes(db, db.registered) && EdgesInside(db.tids, ChildEdges(db, db.registered, tid))
      ensures EdgesInside(db.tids, AggregateEdges(db, aggregates, tid))
    {
      AttributeEdgesInside(db, db.attributes[tid]);
      ChildEdgesInside(db, db.registered, tid);
      AggregateEdgesInside(db, aggregates, tid);
    }

    /** What the edges given lead to. */
    ghost function Through(edges: seq<Edge>, path: seq<string>, barred: seq<Tid>): seq<(Tid, string)>
      requires Valid() && EdgesInside(db.tids, edges)
      reads `aggregates
    {
      VisitsThrough(Graph(), edges, path, barred)
    }

    lemma VisitsInThree(tid: Tid, path: seq<string>, barred: seq<Tid>, start: seq<(Tid, string)>)
      requires Valid() && ValidDatabase(db) && ValidAggregates(db, aggregates) && tid in db.tids && tid !in barred
      requires tid in db.attributes && EdgesInside(db.tids, AttributeEdges(db, db.attributes[tid]))
      requires AllTypes(db, db.registered) && EdgesInside(db.tids, ChildEdges(db, db.registered, tid))
      requires EdgesInside(db.tids, AggregateEdges(db, aggregates, tid))
      ensures start + Visits(Graph(), tid, path, barred)
           == start + [(tid, PathString(path))]
            + Through(AttributeEdges(db, db.attributes[tid]), path, barred + [tid])
            + Through(ChildEdges(db, db.registered, tid), path, barred + [tid])
            + Through(AggregateEdges(db, aggregates, tid), path, barred + [tid])
    {
      hide Visits, VisitsThrough, AttributeEdges, ChildEdges, AggregateEdges, PathString, EdgesInside;
      VisitsByParts(Graph(), tid, AttributeEdges(db, db.attributes[tid]), ChildEdges(db, db.registered, tid),
                    AggregateEdges(db, aggregates, tid), path, barred);
    }

    lemma NothingThrough(path: seq<string>, barred: seq<Tid>)
      requires Valid()
      ensures EdgesInside(db.tids, []) && Through([], path, barred) == []
    {
    }

    method GatherAttributes(tid: Tid)
      requires Valid() && ValidDatabase(db) && tid in db.tids
      requires tid in db.attributes && EdgesInside(db.tids, AttributeEdges(db, db.attributes[tid]))
      modifies this`output, this`currentPath, this`alreadyProcessed
      ensures output
           == old(output)
             + Through(AttributeEdges(db, db.attributes[tid]), old(currentPath), old(alreadyProcessed) + [tid])
      ensures currentPath == old(currentPath) && alreadyProcessed == old(alreadyProcessed)
      decreases |Open(db.tids, alreadyProcessed + [tid])|, 2
    {
      hide *;
      var attributes := db.attributes[tid];
      NothingThrough(currentPath, alreadyProcessed + [tid]);
      NoEdges(db, tid);
      for i := 0 to |attributes|
        invariant currentPath == old(currentPath) && alreadyProcessed == old(alreadyProcessed)
        invariant EdgesInside(db.tids, AttributeEdges(db, attributes[..i]))
        invariant output
          == old(output) + Through(AttributeEdges(db, attributes[..i]), currentPath, alreadyProcessed + [tid])
      {
        AttributeTarget(db, tid, i);
        AttributeStep(db, attributes, i);
        ghost var done := AttributeEdges(db, attributes[..i]);
        var checker := attributes[i].checker;
        if checker.Pointer? {
          if checker.pointee == db.objectTid {
            continue;
          }
          Descend(tid, attributes[i].name, checker.pointee, old(output), done);
          continue;
        }
        if checker.ObjectVector? {
          Descend(tid, attributes[i].name + "/[i]", checker.item, old(output), done);
          continue;
        }
      }
      assert attributes[..|attributes|] == attributes;
    }

    method GatherChildren(tid: Tid)
      requires Valid() && ValidDatabase(db) && tid in db.tids
      requires AllTypes(db, db.registered) && EdgesInside(db.tids, ChildEdges(db, db.registered, tid))
      modifies this`output, this`currentPath, this`alreadyProcessed
      ensures output
           == old(output) + Through(ChildEdges(db, db.registered, tid), old(currentPath), old(alreadyProcessed) + [tid])
      ensures currentPath == old(currentPath) && alreadyProcessed == old(alreadyProcessed)
      decreases |Open(db.tids, alreadyProcessed + [tid])|, 2
    {
      hide *;
      var registered := db.registered;
      NothingThrough(currentPath, alreadyProcessed + [tid]);
      NoEdges(db, tid);
      for j := 0 to |registered|
        invariant currentPath == old(currentPath) && alreadyProcessed == old(alreadyProcessed)
        invariant AllTypes(db, registered[..j]) && EdgesInside(db.tids, ChildEdges(db, registered[..j], tid))
        invariant output
          == old(output) + Through(ChildEdges(db, registered[..j], tid), currentPath, alreadyProcessed + [tid])
      {
        ChildStep(db, j, tid);
        ghost var done := ChildEdges(db, registered[..j], tid);
        var child := registered[j];
        if (child, tid) in db.childOf {
          var childName := "$" + db.names[child];
          Descend(tid, childName, child, old(output), done);
        }
      }
      assert registered[..|registered|] == registered;
    }

    method GatherAggregates(tid: Tid)
      requires Valid() && ValidDatabase(db) && ValidAggregates(db, aggregates)
      requires tid in db.tids && EdgesInside(db.tids, AggregateEdges(db, aggregates, tid))
      modifies this`output, this`currentPath, this`alreadyProcessed
      ensures output
           == old(output)
             + Through(AggregateEdges(db, aggregates, tid), old(currentPath), old(alreadyProcessed) + [tid])
      ensures currentPath == old(currentPath) && alreadyProcessed == old(alreadyProcessed)
      decreases |Open(db.tids, alreadyProcessed + [tid])|, 2
    {
      hide *;
      var items := aggregates;
      NothingThrough(currentPath, alreadyProcessed + [tid]);
      NoEdges(db, tid);
      for k := 0 to |items|
        invariant currentPath == old(currentPath) && alreadyProcessed == old(alreadyProcessed)
        invariant ValidAggregates(db, items[..k]) && EdgesInside(db.tids, AggregateEdges(db, items[..k], tid))
        invariant output
          == old(output) + Through(AggregateEdges(db, items[..k], tid), currentPath, alreadyProcessed + [tid])
      {
        AggregateStep(db, items, k, tid);
        ghost var done := AggregateEdges(db, items[..k], tid);
        var item := items[k];
        if item.0 == tid || item.1 == tid {
          var other := item.0;
          if item.0 == tid {
            other := item.1;
          }
          if item.1 == tid {
            other := item.0;
          }
          var name := "$" + db.names[other];
          Descend(tid, name, other, old(output), done);
        }
      }
      assert items[..|items|] == items;
    }

    /** One recursive call, with both stacks pushed before and popped after it.  The edges done so
        far and the output they have added are only for the contract. */
    method Descend(tid: Tid, name: string, next: Tid, ghost start: seq<(Tid, string)>, ghost done: seq<Edge>)
      requires Valid() && tid in db.tids && next in db.tids && EdgesInside(db.tids, done)
      requires output == start + Through(done, currentPath, alreadyProcessed + [tid])
      modifies this`output, this`currentPath, this`alreadyProcessed
      ensures EdgesInside(db.tids, done + [Edge(name, next)])
      ensures output == start + Through(done + [Edge(name, next)], currentPath, alreadyProcessed + [tid])
      ensures currentPath == old(currentPath) && alreadyProcessed == old(alreadyProcessed)
      decreases |Open(db.tids, alreadyProcessed + [tid])|, 1
    {
      hide Visits, VisitsThrough, GraphOf, Through, Open, ValidDatabase, ValidAggregates, EdgesInside, ValidGraph;
      hide Graph;
      OneMore(done, Edge(name, next), currentPath, alreadyProcessed + [tid]);
      currentPath := currentPath + [name];
      alreadyProcessed := alreadyProcessed + [tid];
      DoGather(next);
      alreadyProcessed := alreadyProcessed[..|alreadyProcessed| - 1];
      currentPath := currentPath[..|currentPath| - 1];
    }

    lemma OneMore(done: seq<Edge>, e: Edge, path: seq<string>, barred: seq<Tid>)
      requires Valid() && EdgesInside(db.tids, done) && e.target in db.tids
      ensures EdgesInside(db.tids, done + [e])
      ensures Through(done + [e], path, barred)
           == Through(done, path, barred) + Visits(Graph(), e.target, path + [e.name], barred)
    {
      assert (done + [e])[..|done|] == done;
      hide Visits, GraphOf, ValidDatabase, ValidAggregates;
    }

    /** The duplicates are removed from a copy only, so this is DoGather. */
    method Gather(tid: Tid)
      requires Valid() && tid in db.tids
      modifies this`output, this`currentPath, this`alreadyProcessed
      ensures output == old(output) + Visits(Graph(), tid, old(currentPath), old(alreadyProcessed))
      ensures currentPath == old(currentPath) && alreadyProcessed == old(alreadyProcessed)
    {
      DoGather(tid);
    }

    method Get(tid: Tid) returns (paths: seq<string>)
      ensures paths == PathsOf(output, tid)
    {
      paths := [];
      for i := 0 to |output|
        invariant paths == PathsOf(output[..i], tid)
      {
        assert output[..i + 1][..i] == output[..i];
        if output[i].0 == tid {
          paths := paths + [output[i].1];
        }
      }
      assert output[..|output|] == output;
    }
  }

  ghost function PathsOf(output: seq<(Tid, string)>, tid: Tid): seq<string> {
    if output == [] then []
    else
      var last := output[|output| - 1];
      PathsOf(output[..|output| - 1], tid) + if last.0 == tid then [last.1] else []
  }

  ghost function OutputsFor(output: seq<(Tid, string)>, tid: Tid): set<nat> {
    set i: nat | i < |output| && output[i].0 == tid
  }

  lemma OutputsMore(output: seq<(Tid, string)>, tid: Tid)
    requires output != []
    ensures
      var n := |output| - 1;
      && (forall i :: i in OutputsFor(output[..n], tid) ==> i < n)
      && OutputsFor(output, tid) == OutputsFor(output[..n], tid) + if output[n].0 == tid then {n} else {}
  {
  }

  /** The paths are those of all outputs for the type, in order. */
  lemma {:induction false} PathsAre(output: seq<(Tid, string)>, tid: Tid) returns (at: seq<nat>)
    ensures Ascends(at, OutputsFor(output, tid)) && |at| == |PathsOf(output, tid)|
    ensures forall k :: 0 <= k < |at| ==> at[k] < |output| && PathsOf(output, tid)[k] == output[at[k]].1
  {
    if output == [] {
      at := [];
    } else {
      var n := |output| - 1;
      at := PathsAre(output[..n], tid);
      OutputsMore(output, tid);
      AscendsMore(at, OutputsFor(output[..n], tid), n);
      at := if output[n].0 == tid then at + [n] else at;
      hide Ascends, OutputsFor;
    }
  }

  lemma VisitsByParts(g: TypeGraph, tid: Tid, e1: seq<Edge>, e2: seq<Edge>, e3: seq<Edge>, path: seq<string>,
                      barred: seq<Tid>)
    requires ValidGraph(g) && tid in g.nodes && tid in g.edges && g.edges[tid] == e1 + e2 + e3 && tid !in barred
    requires EdgesInside(g.nodes, e1) && EdgesInside(g.nodes, e2) && EdgesInside(g.nodes, e3)
    ensures Visits(g, tid, path, barred)
         == [(tid, PathString(path))] + VisitsThrough(g, e1, path, barred + [tid])
          + VisitsThrough(g, e2, path, barred + [tid]) + VisitsThrough(g, e3, path, barred + [tid])
  {
    hide *;
    VisitsThroughConcat(g, e1, e2, path, barred + [tid]);
    VisitsThroughConcat(g, e1 + e2, e3, path, barred + [tid]);
    VisitsUnfold(g, tid, path, barred);
  }

  lemma VisitsUnfold(g: TypeGraph, tid: Tid, path: seq<string>, barred: seq<Tid>)
    requires ValidGraph(g) && tid in g.nodes && tid in g.edges && tid !in barred
    ensures EdgesInside(g.nodes, g.edges[tid])
    ensures Visits(g, tid, path, barred)
         == [(tid, PathString(path))] + VisitsThrough(g, g.edges[tid], path, barred + [tid])
  {
  }

  lemma AttributeTarget(db: Database, tid: Tid, i: nat)
    requires ValidDatabase(db) && tid in db.tids && i < |db.attributes[tid]|
    ensures match db.attributes[tid][i].checker {
        case Pointer(t) => t in db.tids
        case ObjectVector(t) => t in db.tids
        case Other => true
      }
  {
  }

  lemma NoEdges(db: Database, tid: Tid)
    requires ValidDatabase(db)
    ensures AttributeEdges(db, []) == [] && AllTypes(db, []) && ChildEdges(db, [], tid) == []
    ensures ValidAggregates(db, []) && AggregateEdges(db, [], tid) == []
  {
  }

  lemma AttributeStep(db: Database, attributes: seq<Attribute>, i: nat)
    requires i < |attributes|
    ensures
      var before, after := AttributeEdges(db, attributes[..i]), AttributeEdges(db, attributes[..i + 1]);
      match attributes[i].checker {
        case Pointer(t) => after == if t == db.objectTid then before else before + [Edge(attributes[i].name, t)]
        case ObjectVector(t) => after == before + [Edge(attributes[i].name + "/[i]", t)]
        case Other => after == before
      }
  {
    assert attributes[..i + 1][..i] == attributes[..i];
  }

  lemma ChildStep(db: Database, j: nat, tid: Tid)
    requires ValidDatabase(db) && j < |db.registered|
    ensures AllTypes(db, db.registered[..j]) && AllTypes(db, db.registered[..j + 1])
    ensures db.registered[j] in db.tids && db.registered[j] in db.names
    ensures
      var before, child := ChildEdges(db, db.registered[..j], tid), db.registered[j];
      ChildEdges(db, db.registered[..j + 1], tid)
      == if (child, tid) in db.childOf then before + [Edge("$" + db.names[child], child)] else before
  {
    assert db.registered[..j + 1][..j] == db.registered[..j];
  }

  lemma AggregateStep(db: Database, aggregates: seq<(Tid, Tid)>, k: nat, tid: Tid)
    requires ValidDatabase(db) && ValidAggregates(db, aggregates) && k < |aggregates|
    ensures ValidAggregates(db, aggregates[..k]) && ValidAggregates(db, aggregates[..k + 1])
    ensures aggregates[k].0 in db.tids && aggregates[k].1 in db.tids
    ensures aggregates[k].0 in db.names && aggregates[k].1 in db.names
    ensures
      var before := AggregateEdges(db, aggregates[..k], tid);
      var other := if aggregates[k].1 == tid then aggregates[k].0 else aggregates[k].1;
      AggregateEdges(db, aggregates[..k + 1], tid)
      == if aggregates[k].0 == tid || aggregates[k].1 == tid then before + [Edge("$" + db.names[other], other)]
         else before
  {
    assert aggregates[..k + 1][..k] == aggregates[..k];
  }
}
