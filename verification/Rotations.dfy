/** Rotations of a list, and the test for them in bindings/python/rad_util.py. */
module Rotations {

  ghost function Rotate<T>(s: seq<T>, k: nat): seq<T>
    requires k <= |s|
  {
    s[k..] + s[..k]
  }

  /** b is a rotation of the nonempty list a. */
  ghost predicate Rotation<T>(a: seq<T>, b: seq<T>) {
    exists k :: 0 <= k < |a| && b == Rotate(a, k)
  }

  lemma RotationSame<T>(a: seq<T>)
    requires a != []
    ensures Rotation(a, a)
  {
    assert Rotate(a, 0) == a;
  }

  lemma RotationBack<T>(a: seq<T>, b: seq<T>)
    requires Rotation(a, b)
    ensures Rotation(b, a)
  {
    var k :| 0 <= k < |a| && b == Rotate(a, k);
    if k == 0 {
      RotationSame(a);
      assert a == b;
    } else {
      assert Rotate(b, |a| - k) == a;
    }
  }

  lemma RotationChain<T>(a: seq<T>, b: seq<T>, c: seq<T>)
    requires Rotation(a, b) && Rotation(b, c)
    ensures Rotation(a, c)
  {
    var k :| 0 <= k < |a| && b == Rotate(a, k);
    var m :| 0 <= m < |b| && c == Rotate(b, m);
    RotateTwice(a, k, m);
  }

  lemma RotateTwice<T>(a: seq<T>, k: nat, m: nat)
    requires k < |a| && m < |a|
    ensures Rotate(Rotate(a, k), m) == if k + m < |a| then Rotate(a, k + m) else Rotate(a, k + m - |a|)
  {
    var b := Rotate(a, k);
    if k + m < |a| {
      assert b[m..] == a[k + m..] + a[..k] && b[..m] == a[k..k + m];
      assert a[..k] + a[k..k + m] == a[..k + m];
      assert b[m..] + b[..m] == a[k + m..] + (a[..k] + a[k..k + m]);
    } else {
      var d := k + m - |a|;
      assert b[m..] == a[d..k] && b[..m] == a[k..] + a[..d];
      assert a[d..k] + a[k..] == a[d..];
      assert b[m..] + b[..m] == (a[d..k] + a[k..]) + a[..d];
    }
  }

  /** The head of two empty lists is asked for: an IndexError. */
  datatype RotationTest = Answer(rotated: bool) | IndexError

  method IsRotated<T(==)>(seq1: seq<T>, seq2: seq<T>) returns (r: RotationTest)
    ensures r.IndexError? <==> seq1 == [] && seq2 == []
    ensures r.Answer? ==> (r.rotated <==> Rotation(seq1, seq2))
  {
    if |seq1| != |seq2| {
      return Answer(false);
    }
    if seq2 == [] {
      return IndexError;
    }
    var startIndexes: seq<nat> := [];
    var headItem := seq2[0];
    for index1 := 0 to |seq1|
      invariant forall k :: k in startIndexes <==> 0 <= k < index1 && seq1[k] == headItem
      invariant forall i :: 0 <= i < |startIndexes| ==> startIndexes[i] < index1
    {
      if seq1[index1] == headItem {
        startIndexes := startIndexes + [index1];
      }
    }
    var doubleSeq1 := seq1 + seq1;
    for j := 0 to |startIndexes|
      invariant forall i :: 0 <= i < j ==> Rotate(seq1, startIndexes[i]) != seq2
    {
      var index1 := startIndexes[j];
      assert index1 in startIndexes;
      assert doubleSeq1[index1..index1 + |seq1|] == Rotate(seq1, index1);
      if doubleSeq1[index1..index1 + |seq1|] == seq2 {
        return Answer(true);
      }
    }
    forall k | 0 <= k < |seq1| ensures Rotate(seq1, k) != seq2 {
      assert Rotate(seq1, k)[0] == seq1[k];
      assert k in startIndexes <==> seq1[k] == headItem;
    }
    r := Answer(false);
  }
}
