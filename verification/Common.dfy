/** What several of the models share. */
module Common {

  datatype Option<+T> = None | Some(value: T)

  ghost predicate Distinct<T>(s: seq<T>) {
    forall i, j :: 0 <= i < j < |s| ==> s[i] != s[j]
  }

  /** The children listed for a; an item without an entry has none. */
  ghost function ChildrenOf<T>(children: map<T, seq<T>>, a: T): seq<T> {
    if a in children then children[a] else []
  }

  lemma Regroup<T>(a: seq<T>, b: seq<T>, c: seq<T>)
    ensures a + b + c == a + (b + c)
  {
  }
}
