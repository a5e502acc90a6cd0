/** The order in which the first-in first-out sort lists the elements. */
module TopsortOrder {
  import opened Common
  import opened Graphs
  import opened Topsort
  import opened TopsortLaws

  /** The numbers of the pairs with parent p. */
  ghost function KidPairs<T>(pairs: seq<(T, T)>, p: T): seq<nat> {
    if pairs == [] then []
    else
      var n := |pairs| - 1;
      KidPairs(pairs[..n], p) + if pairs[n].0 == p then [n] else []
  }

  lemma {:induction false} KidPairsAre<T>(pairs: seq<(T, T)>, p: T)
    ensures |KidPairs(pairs, p)| == |Kids(pairs, p)|
    ensures forall j :: 0 <= j < |KidPairs(pairs, p)| ==>
      KidPairs(pairs, p)[j] < |pairs| && pairs[KidPairs(pairs, p)[j]] == (p, Kids(pairs, p)[j])
    ensures forall i, j :: 0 <= i < j < |KidPairs(pairs, p)| ==> KidPairs(pairs, p)[i] < KidPairs(pairs, p)[j]
    ensures forall m: nat :: m < |pairs| && pairs[m].0 == p ==> m in KidPairs(pairs, p)
  {
    if pairs != [] { KidPairsAre(pairs[..|pairs| - 1], p); }
  }

  /** Of all pairs into x, pair m has the parent listed last, and is the last of those with that parent. */
  ghost predicate LastPairInto<T(!new)>(pairs: seq<(T, T)>, answer: seq<T>, x: T, m: nat) {
    && m < |pairs| && pairs[m].1 == x
    && forall i :: 0 <= i < |pairs| && pairs[i].1 == x ==>
         Precedes(answer, pairs[i].0, pairs[m].0) || (pairs[i].0 == pairs[m].0 && i <= m)
  }

  lemma NotBoth<T>(s: seq<T>, i: nat, j: nat)
    requires Distinct(s) && i <= j < |s|
    ensures !Precedes(s, s[j], s[i])
    ensures i < j ==> Precedes(s, s[i], s[j])
  {
  }

  /** The pair that a turn stands for. */
  lemma TurnPair<T(!new)>(g: Graph<T>, answer: seq<T>, x: T, turn: (nat, nat)) returns (m: nat)
    requires Distinct(answer) && ReleasedBy(g, answer, x, turn)
    ensures m < |g.pairs| && g.pairs[m] == (answer[turn.0], x)
    ensures turn.1 < |KidPairs(g.pairs, answer[turn.0])| && KidPairs(g.pairs, answer[turn.0])[turn.1] == m
    ensures LastPairInto(g.pairs, answer, x, m)
  {
    var p := answer[turn.0];
    KidPairsAre(g.pairs, p);
    var at := KidPairs(g.pairs, p);
    m := at[turn.1];
    forall i | 0 <= i < |g.pairs| && g.pairs[i].1 == x
      ensures Precedes(answer, g.pairs[i].0, p) || (g.pairs[i].0 == p && i <= m)
    {
      assert Edge(g, g.pairs[i].0, x);
      var k :| 0 <= k < turn.0 + 1 && answer[k] == g.pairs[i].0;
      if k == turn.0 {
        var j :| 0 <= j < |at| && at[j] == i;
        assert j <= turn.1;
      } else {
        NotBoth(answer, k, turn.0);
      }
    }
  }

  lemma LastPairUnique<T(!new)>(pairs: seq<(T, T)>, answer: seq<T>, x: T, m: nat, n: nat)
    requires Distinct(answer) && LastPairInto(pairs, answer, x, m) && LastPairInto(pairs, answer, x, n)
    ensures m == n
  {
  }

  /** The turn of a listed node that has a parent. */
  lemma TurnOf<T(!new)>(g: Graph<T>, answer: seq<T>, turns: seq<(nat, nat)>, a: nat) returns (q: nat)
    requires FirstInFirstOut(g, answer, turns) && a < |answer| && !NoParent(g, answer[a])
    ensures q < |turns| && a == |answer| - |turns| + q && ReleasedBy(g, answer, answer[a], turns[q])
  {
    q := a - (|answer| - |turns|);
  }

  lemma PairsInOrder<T(!new)>(g: Graph<T>, answer: seq<T>, s: (nat, nat), t: (nat, nat), m: nat, n: nat)
    requires Distinct(answer) && s.0 < |answer| && t.0 < |answer| && Earlier(s, t)
    requires s.1 < |KidPairs(g.pairs, answer[s.0])| && KidPairs(g.pairs, answer[s.0])[s.1] == m
    requires t.1 < |KidPairs(g.pairs, answer[t.0])| && KidPairs(g.pairs, answer[t.0])[t.1] == n
    ensures Precedes(answer, answer[s.0], answer[t.0]) || (answer[s.0] == answer[t.0] && m < n)
    ensures !Precedes(answer, answer[t.0], answer[s.0]) && !(answer[s.0] == answer[t.0] && n <= m)
  {
    NotBoth(answer, s.0, t.0);
    if s.0 == t.0 { KidPairsAre(g.pairs, answer[s.0]); }
  }

  lemma OrderOfTurns<T(!new)>(g: Graph<T>, answer: seq<T>, turns: seq<(nat, nat)>, a: nat, b: nat, m: nat, n: nat)
    requires Distinct(answer) && FirstInFirstOut(g, answer, turns) && a < b < |answer|
    requires LastPairInto(g.pairs, answer, answer[a], m) && LastPairInto(g.pairs, answer, answer[b], n)
    ensures Precedes(answer, g.pairs[m].0, g.pairs[n].0) || (g.pairs[m].0 == g.pairs[n].0 && m < n)
    ensures !Precedes(answer, g.pairs[n].0, g.pairs[m].0) && !(g.pairs[n].0 == g.pairs[m].0 && n <= m)
  {
    assert Edge(g, g.pairs[m].0, answer[a]) && Edge(g, g.pairs[n].0, answer[b]);
    var i := TurnOf(g, answer, turns, a);
    var j := TurnOf(g, answer, turns, b);
    var m' := TurnPair(g, answer, answer[a], turns[i]);
    var n' := TurnPair(g, answer, answer[b], turns[j]);
    LastPairUnique(g.pairs, answer, answer[a], m, m');
    LastPairUnique(g.pairs, answer, answer[b], n, n');
    PairsInOrder(g, answer, turns[i], turns[j], m, n);
  }

  /** An element with a parent has a last pair; elements without come before it. */
  lemma ParentlessFirst<T(!new)>(pairs: seq<(T, T)>, r: SortOutcome<T>, y: T, n: nat) returns (last: nat)
    requires SortsPairs(pairs, r) && y in r.answer && n < |pairs| && pairs[n].1 == y
    ensures LastPairInto(pairs, r.answer, y, last)
    ensures forall x :: x in r.answer && (forall i :: 0 <= i < |pairs| ==> pairs[i].1 != x) ==>
      Precedes(r.answer, x, y)
  {
    var g, answer := GraphOf(pairs), r.answer;
    var turns :| FirstInFirstOut(g, answer, turns);
    var b :| 0 <= b < |answer| && answer[b] == y;
    assert Edge(g, pairs[n].0, y);
    var q := TurnOf(g, answer, turns, b);
    last := TurnPair(g, answer, y, turns[q]);
    forall x | x in answer && (forall i :: 0 <= i < |pairs| ==> pairs[i].1 != x) ensures Precedes(answer, x, y) {
      var a :| 0 <= a < |answer| && answer[a] == x;
      NotParentless(g, answer, turns, a);
      NotBoth(answer, a, b);
    }
  }

  lemma NotParentless<T(!new)>(g: Graph<T>, answer: seq<T>, turns: seq<(nat, nat)>, a: nat)
    requires FirstInFirstOut(g, answer, turns) && a < |answer|
    ensures a < |answer| - |turns| <==> forall i :: 0 <= i < |g.pairs| ==> g.pairs[i].1 != answer[a]
  {
    if a < |answer| - |turns| {
      forall i | 0 <= i < |g.pairs| ensures g.pairs[i].1 != answer[a] {
        assert !Edge(g, g.pairs[i].0, answer[a]);
      }
    } else {
      var q := a - (|answer| - |turns|);
      assert ReleasedBy(g, answer, answer[|answer| - |turns| + q], turns[q]);
      KidsAreEdges(g.pairs, answer[turns[q].0], answer[a]);
    }
  }

  /** First in, first out: of two elements with parents the one stands first whose parent listed last
      stands first or, where this is the same parent, whose last pair with it comes first. */
  lemma OrderOfAnswer<T(!new)>(pairs: seq<(T, T)>, r: SortOutcome<T>, x: T, y: T, m: nat, n: nat)
    requires SortsPairs(pairs, r) && x in r.answer && y in r.answer && x != y
    requires LastPairInto(pairs, r.answer, x, m) && LastPairInto(pairs, r.answer, y, n)
    ensures Precedes(r.answer, x, y)
       <==> Precedes(r.answer, pairs[m].0, pairs[n].0) || (pairs[m].0 == pairs[n].0 && m < n)
  {
    var g, answer := GraphOf(pairs), r.answer;
    var turns :| FirstInFirstOut(g, answer, turns);
    var a :| 0 <= a < |answer| && answer[a] == x;
    var b :| 0 <= b < |answer| && answer[b] == y;
    hide FirstInFirstOut, LastPairInto, SortsPairs;
    assert Distinct(answer) by { AnswerDistinct(pairs, r); }
    if a < b {
      OrderOfTurns(g, answer, turns, a, b, m, n);
      NotBoth(answer, a, b);
    } else {
      OrderOfTurns(g, answer, turns, b, a, n, m);
      NotBoth(answer, b, a);
    }
  }

  lemma AnswerDistinct<T(!new)>(pairs: seq<(T, T)>, r: SortOutcome<T>)
    requires SortsPairs(pairs, r)
    ensures Distinct(r.answer)
  {
  }

  // ------------------------------------------ the roots decide the whole answer

  /** Two turns of x, in lists that begin alike and have all parents of x in that beginning. */
  lemma SameTurn<T(!new)>(g: Graph<T>, a: seq<T>, b: seq<T>, n: nat, x: T, s: (nat, nat), t: (nat, nat))
    requires n <= |a| && n <= |b| && a[..n] == b[..n] && Distinct(a) && Distinct(b)
    requires forall p :: Edge(g, p, x) ==> p in a[..n]
    requires ReleasedBy(g, a, x, s) && ReleasedBy(g, b, x, t)
    ensures s == t
  {
    NotLater(g, a, b, n, x, s, t);
    NotLater(g, b, a, n, x, t, s);
  }

  lemma NotLater<T(!new)>(g: Graph<T>, a: seq<T>, b: seq<T>, n: nat, x: T, s: (nat, nat), t: (nat, nat))
    requires n <= |a| && n <= |b| && a[..n] == b[..n] && Distinct(a) && Distinct(b)
    requires forall p :: Edge(g, p, x) ==> p in a[..n]
    requires ReleasedBy(g, a, x, s) && ReleasedBy(g, b, x, t)
    ensures s.0 < n && a[s.0] == b[s.0] && s.0 <= t.0
  {
    KidsAreEdges(g.pairs, a[s.0], x);
    assert Edge(g, a[s.0], x);
    var k :| 0 <= k < n && a[..n][k] == a[s.0];
    assert a[k] == a[..n][k] == b[..n][k] == b[k];
    assert k == s.0;
    var i :| 0 <= i < t.0 + 1 && b[..t.0 + 1][i] == a[s.0];
    assert b[i] == b[k];
  }

  /** Where two different lists of the same elements part. */
  lemma {:induction false} PartAt<T>(a: seq<T>, b: seq<T>) returns (n: nat)
    requires a != b && |a| == |b|
    ensures n < |a| && a[..n] == b[..n] && a[n] != b[n]
  {
    if a[0] != b[0] {
      n := 0;
    } else {
      assert a == [a[0]] + a[1..] && b == [b[0]] + b[1..];
      var k := PartAt(a[1..], b[1..]);
      n := k + 1;
      assert a[..n] == [a[0]] + a[1..][..k] && b[..n] == [b[0]] + b[1..][..k];
    }
  }

  lemma {:induction false} ElementsSize<T>(s: seq<T>)
    requires Distinct(s)
    ensures |Elements(s)| == |s|
  {
    if s != [] {
      var n := |s| - 1;
      ElementsSize(s[..n]);
      assert Elements(s) == Elements(s[..n]) + {s[n]};
    }
  }

  /** The elements without parents stand in the same places. */
  ghost predicate SameRoots<T(!new)>(g: Graph<T>, a: seq<T>, b: seq<T>) {
    forall q :: 0 <= q < |a| && NoParent(g, a[q]) ==> q < |b| && b[q] == a[q]
  }

  /** A node that stands later in the one list than where the lists part has the later turn in both. */
  lemma LaterTurn<T(!new)>(g: Graph<T>, a: seq<T>, b: seq<T>, s: seq<(nat, nat)>, t: seq<(nat, nat)>, n: nat)
    returns (x: (nat, nat), y: (nat, nat))
    requires ParentsFirst(g, a) && ParentsFirst(g, b) && FirstInFirstOut(g, a, s) && FirstInFirstOut(g, b, t)
    requires n < |a| && n < |b| && a[..n] == b[..n] && a[n] != b[n] && b[n] in a
    requires !NoParent(g, a[n]) && !NoParent(g, b[n])
    ensures ReleasedBy(g, a, a[n], x) && ReleasedBy(g, a, b[n], y) && Earlier(x, y)
    ensures forall p :: Edge(g, p, a[n]) || Edge(g, p, b[n]) ==> p in a[..n]
  {
    var k :| 0 <= k < |a| && a[k] == b[n];
    assert k > n;
    var i := TurnOf(g, a, s, n);
    var j := TurnOf(g, a, s, k);
    x, y := s[i], s[j];
  }

  lemma RootsAgree<T(!new)>(g: Graph<T>, a: seq<T>, b: seq<T>, s: seq<(nat, nat)>, n: nat)
    requires Distinct(b) && FirstInFirstOut(g, a, s) && SameRoots(g, a, b)
    requires n < |a| && n < |b| && a[..n] == b[..n] && a[n] != b[n] && b[n] in a
    ensures !NoParent(g, a[n]) && !NoParent(g, b[n])
  {
  }

  lemma PartNowhere<T(!new)>(g: Graph<T>, a: seq<T>, b: seq<T>, s: seq<(nat, nat)>, t: seq<(nat, nat)>)
    requires ParentsFirst(g, a) && ParentsFirst(g, b) && FirstInFirstOut(g, a, s) && FirstInFirstOut(g, b, t)
    requires Elements(a) == Elements(b) && SameRoots(g, a, b)
    ensures a == b
  {
    ElementsSize(a);
    ElementsSize(b);
    if a != b {
      var n := PartAt(a, b);
      assert b[n] in Elements(a) && a[n] in Elements(b);
      RootsAgree(g, a, b, s, n);
      hide FirstInFirstOut, ReleasedBy, Elements, NoParent, SameRoots;
      var x, y := LaterTurn(g, a, b, s, t, n);
      var v, u := LaterTurn(g, b, a, t, s, n);
      SameTurn(g, a, b, n, a[n], x, u);
      SameTurn(g, a, b, n, b[n], y, v);
      assert false;
    }
  }

  /** For a pair list the elements without parents, which the dictionary gives in some order, decide the
      whole outcome. */
  lemma OneOutcome<T(!new)>(pairs: seq<(T, T)>, q: SortOutcome<T>, r: SortOutcome<T>)
    requires SortsPairs(pairs, q) && SortsPairs(pairs, r) && SameRoots(GraphOf(pairs), q.answer, r.answer)
    ensures q == r
  {
    var g := GraphOf(pairs);
    var s :| FirstInFirstOut(g, q.answer, s);
    var t :| FirstInFirstOut(g, r.answer, t);
    hide FirstInFirstOut, ParentsFirst, HasCycle, BelowCycles, CountTable, ChildTable, Levelled, Elements, SameRoots;
    PartNowhere(g, q.answer, r.answer, s, t);
  }
}
