/** The edges of the type graph in terms of the database: where each comes from, and that none is missing. */
module TypeEdges {
  import opened TypeWalks

  /** The list has these numbers in order. */
  ghost predicate Ascends(at: seq<nat>, numbers: set<nat>) {
    && (forall i, j :: 0 <= i < j < |at| ==> at[i] < at[j])
    && forall i: nat :: i in at <==> i in numbers
  }

  lemma AscendsMore(at: seq<nat>, numbers: set<nat>, n: nat)
    requires Ascends(at, numbers) && forall i :: i in numbers ==> i < n
    ensures Ascends(at + [n], numbers + {n})
  {
    forall i, j | 0 <= i < j < |at + [n]| ensures (at + [n])[i] < (at + [n])[j] {
      assert (at + [n])[i] in at;
    }
  }

  // -------------------------------------------------------------- attributes

  /** Pointers other than to the base class, and vectors of objects. */
  ghost function Leading(db: Database, attributes: seq<Attribute>): set<nat> {
    set i: nat | i < |attributes|
      && (attributes[i].checker.ObjectVector?
          || (attributes[i].checker.Pointer? && attributes[i].checker.pointee != db.objectTid))
  }

  ghost predicate IsAttributeEdge(a: Attribute, e: Edge) {
    || (a.checker == Pointer(e.target) && e.name == a.name)
    || (a.checker == ObjectVector(e.target) && e.name == a.name + "/[i]")
  }

  ghost predicate AttributesLead(db: Database, attributes: seq<Attribute>, edges: seq<Edge>, at: seq<nat>) {
    && Ascends(at, Leading(db, attributes)) && |at| == |edges|
    && forall k :: 0 <= k < |at| ==> at[k] < |attributes| && IsAttributeEdge(attributes[at[k]], edges[k])
  }

  lemma LeadingMore(db: Database, attributes: seq<Attribute>)
    requires attributes != []
    ensures
      var n := |attributes| - 1;
      var a := attributes[n];
      && (forall i :: i in Leading(db, attributes[..n]) ==> i < n)
      && Leading(db, attributes) == Leading(db, attributes[..n])
         + if a.checker.ObjectVector? || (a.checker.Pointer? && a.checker.pointee != db.objectTid) then {n} else {}
  {
  }

  lemma AttributesLeadMore(db: Database, attributes: seq<Attribute>, edges: seq<Edge>, at: seq<nat>, e: Edge)
    requires attributes != [] && AttributesLead(db, attributes[..|attributes| - 1], edges, at)
    ensures
      var n := |attributes| - 1;
      if n !in Leading(db, attributes) then AttributesLead(db, attributes, edges, at)
      else IsAttributeEdge(attributes[n], e) ==> AttributesLead(db, attributes, edges + [e], at + [n])
  {
    var n := |attributes| - 1;
    LeadingMore(db, attributes);
    AscendsMore(at, Leading(db, attributes[..n]), n);
    hide Ascends, Leading, IsAttributeEdge;
  }

  lemma {:induction false} AttributeEdgesAre(db: Database, attributes: seq<Attribute>) returns (at: seq<nat>)
    ensures AttributesLead(db, attributes, AttributeEdges(db, attributes), at)
  {
    if attributes == [] {
      at := [];
    } else {
      var n := |attributes| - 1;
      var before, edges := AttributeEdges(db, attributes[..n]), AttributeEdges(db, attributes);
      at := AttributeEdgesAre(db, attributes[..n]);
      AttributesLeadMore(db, attributes, before, at, if |edges| > |before| then edges[|before|] else Edge("", 0));
      if n in Leading(db, attributes) {
        at := at + [n];
        assert edges == before + [edges[|before|]] && IsAttributeEdge(attributes[n], edges[|before|]);
      } else {
        assert edges == before;
      }
      hide AttributesLead;
    }
  }

  // ---------------------------------------------------------------- children

  ghost function Children(db: Database, registered: seq<Tid>, tid: Tid): set<nat> {
    set i: nat | i < |registered| && (registered[i], tid) in db.childOf
  }

  ghost predicate ChildrenLead(db: Database, registered: seq<Tid>, tid: Tid, edges: seq<Edge>, at: seq<nat>)
    requires ValidDatabase(db) && AllTypes(db, registered)
  {
    && Ascends(at, Children(db, registered, tid)) && |at| == |edges|
    && forall k :: 0 <= k < |at| ==>
         at[k] < |registered| && edges[k] == Edge("$" + db.names[registered[at[k]]], registered[at[k]])
  }

  lemma ChildrenMore(db: Database, registered: seq<Tid>, tid: Tid)
    requires registered != []
    ensures
      var n := |registered| - 1;
      && (forall i :: i in Children(db, registered[..n], tid) ==> i < n)
      && Children(db, registered, tid)
         == Children(db, registered[..n], tid) + if (registered[n], tid) in db.childOf then {n} else {}
  {
  }

  lemma ChildrenLeadMore(db: Database, registered: seq<Tid>, tid: Tid, edges: seq<Edge>, at: seq<nat>)
    requires ValidDatabase(db) && AllTypes(db, registered) && registered != []
    requires ChildrenLead(db, registered[..|registered| - 1], tid, edges, at)
    ensures
      var n := |registered| - 1;
      if n in Children(db, registered, tid) then
        ChildrenLead(db, registered, tid, edges + [Edge("$" + db.names[registered[n]], registered[n])], at + [n])
      else ChildrenLead(db, registered, tid, edges, at)
  {
    var n := |registered| - 1;
    ChildrenMore(db, registered, tid);
    AscendsMore(at, Children(db, registered[..n], tid), n);
    hide Ascends, Children;
  }

  lemma {:induction false} ChildEdgesAre(db: Database, registered: seq<Tid>, tid: Tid) returns (at: seq<nat>)
    requires ValidDatabase(db) && AllTypes(db, registered)
    ensures ChildrenLead(db, registered, tid, ChildEdges(db, registered, tid), at)
  {
    if registered == [] {
      at := [];
    } else {
      var n := |registered| - 1;
      at := ChildEdgesAre(db, registered[..n], tid);
      ChildrenLeadMore(db, registered, tid, ChildEdges(db, registered[..n], tid), at);
      if n in Children(db, registered, tid) {
        at := at + [n];
      } else {
        assert ChildEdges(db, registered, tid) == ChildEdges(db, registered[..n], tid);
      }
      hide ChildrenLead;
    }
  }

  // -------------------------------------------------------------- aggregates

  ghost function Pairs(aggregates: seq<(Tid, Tid)>, tid: Tid): set<nat> {
    set i: nat | i < |aggregates| && (aggregates[i].0 == tid || aggregates[i].1 == tid)
  }

  ghost predicate PairsLead(db: Database, aggregates: seq<(Tid, Tid)>, tid: Tid, edges: seq<Edge>, at: seq<nat>)
    requires ValidDatabase(db)
  {
    && Ascends(at, Pairs(aggregates, tid)) && |at| == |edges|
    && forall k :: 0 <= k < |at| ==> at[k] < |aggregates| && IsPairEdge(db, aggregates[at[k]], tid, edges[k])
  }

  /** The edge leads to the other side, whose name it bears. */
  ghost predicate IsPairEdge(db: Database, pair: (Tid, Tid), tid: Tid, e: Edge)
    requires ValidDatabase(db)
  {
    && (pair == (e.target, tid) || pair == (tid, e.target))
    && e.target in db.names && e.name == "$" + db.names[e.target]
  }

  lemma OtherSideLeads(db: Database, aggregates: seq<(Tid, Tid)>, tid: Tid)
    requires ValidDatabase(db) && ValidAggregates(db, aggregates) && aggregates != []
    ensures
      var n := |aggregates| - 1;
      var pair, before := aggregates[n], AggregateEdges(db, aggregates[..n], tid);
      if pair.0 == tid || pair.1 == tid then
        AggregateEdges(db, aggregates, tid) == before + [AggregateEdges(db, aggregates, tid)[|before|]]
        && IsPairEdge(db, pair, tid, AggregateEdges(db, aggregates, tid)[|before|])
      else AggregateEdges(db, aggregates, tid) == before
  {
  }

  lemma PairsMore(aggregates: seq<(Tid, Tid)>, tid: Tid)
    requires aggregates != []
    ensures
      var n := |aggregates| - 1;
      && (forall i :: i in Pairs(aggregates[..n], tid) ==> i < n)
      && Pairs(aggregates, tid)
         == Pairs(aggregates[..n], tid) + if aggregates[n].0 == tid || aggregates[n].1 == tid then {n} else {}
  {
  }

  lemma PairsLeadMore(db: Database, aggregates: seq<(Tid, Tid)>, tid: Tid, edges: seq<Edge>, at: seq<nat>, e: Edge)
    requires ValidDatabase(db) && aggregates != [] && PairsLead(db, aggregates[..|aggregates| - 1], tid, edges, at)
    ensures
      var n := |aggregates| - 1;
      if n !in Pairs(aggregates, tid) then PairsLead(db, aggregates, tid, edges, at)
      else IsPairEdge(db, aggregates[n], tid, e) ==> PairsLead(db, aggregates, tid, edges + [e], at + [n])
  {
    var n := |aggregates| - 1;
    PairsMore(aggregates, tid);
    AscendsMore(at, Pairs(aggregates[..n], tid), n);
    hide Ascends, Pairs, IsPairEdge;
  }

  lemma {:induction false} AggregateEdgesAre(db: Database, aggregates: seq<(Tid, Tid)>, tid: Tid)
    returns (at: seq<nat>)
    requires ValidDatabase(db) && ValidAggregates(db, aggregates)
    ensures PairsLead(db, aggregates, tid, AggregateEdges(db, aggregates, tid), at)
  {
    if aggregates == [] {
      at := [];
    } else {
      var n := |aggregates| - 1;
      var before, edges := AggregateEdges(db, aggregates[..n], tid), AggregateEdges(db, aggregates, tid);
      at := AggregateEdgesAre(db, aggregates[..n], tid);
      OtherSideLeads(db, aggregates, tid);
      PairsLeadMore(db, aggregates, tid, before, at, if |edges| > |before| then edges[|before|] else Edge("", 0));
      if n in Pairs(aggregates, tid) { at := at + [n]; }
      hide PairsLead, AggregateEdges, OtherSide, IsPairEdge;
    }
  }

  /** The edges out of a type, in order: one for each attribute that leads on, one for each registered
      child, and one for each aggregation pair with the type on one side. */
  lemma EdgesAre(db: Database, aggregates: seq<(Tid, Tid)>, tid: Tid)
    returns (a: seq<nat>, b: seq<nat>, c: seq<nat>)
    requires ValidDatabase(db) && ValidAggregates(db, aggregates) && tid in db.tids
    ensures tid in GraphOf(db, aggregates).edges
    ensures
      var edges := GraphOf(db, aggregates).edges[tid];
      var (m, n) := (|a|, |a| + |b|);
      && |edges| == |a| + |b| + |c|
      && AttributesLead(db, db.attributes[tid], edges[..m], a)
      && ChildrenLead(db, db.registered, tid, edges[m..n], b)
      && PairsLead(db, aggregates, tid, edges[n..], c)
  {
    a := AttributeEdgesAre(db, db.attributes[tid]);
    b := ChildEdgesAre(db, db.registered, tid);
    c := AggregateEdgesAre(db, aggregates, tid);
    hide Ascends, AttributeEdges, ChildEdges, AggregateEdges, Pairs, Children, Leading;
    assert GraphOf(db, aggregates).edges[tid] == Edges(db, aggregates, tid);
  }
}
