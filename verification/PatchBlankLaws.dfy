/** What the rewriting of dropped trailing blanks in utils/check-style.py does to the source side of a
    patch, and to what the patch reads as once it is written. */
module PatchBlankLaws {
  import opened PatchText
  import opened PatchBlanks
  import opened PatchRoundTrip

  // --------------------------------------------------- which lines change

  /** The n-th line on the destination side gets a blank: when it is its turn, the n-th line on the
      source side is the same with one blank more. */
  ghost predicate GetsBlank(lines: seq<Line>, n: nat) {
    && n < |Side(lines, true)| && n < |Side(lines, false)|
    && OneBlankMore(FixUpTo(lines, n)[Side(lines, true)[n]].text, lines[Side(lines, false)[n]].text)
  }

  lemma Places(lines: seq<Line>, m: nat, n: nat)
    requires n < m <= |Side(lines, true)| && m <= |Side(lines, false)|
    ensures Side(lines, true)[n] < |lines| && Side(lines, false)[n] < |lines| && Side(lines, false)[m - 1] < |lines|
    ensures n < m - 1 ==> Side(lines, false)[n] != Side(lines, false)[m - 1]
    ensures |FixUpTo(lines, n)| == |FixUpTo(lines, m)| == |lines|
    ensures OnDstSide(lines[Side(lines, false)[n]].kind)
  {
  }

  lemma {:induction false} LineAt(lines: seq<Line>, m: nat, n: nat)
    requires n < m <= |Side(lines, true)| && m <= |Side(lines, false)|
    ensures Side(lines, true)[n] < |lines| && Side(lines, false)[n] < |lines|
    ensures
      var at := Side(lines, false)[n];
      FixUpTo(lines, m)[at]
      == if GetsBlank(lines, n) then lines[at].(text := FixUpTo(lines, n)[Side(lines, true)[n]].text) else lines[at]
  {
    hide *;
    Places(lines, m, n);
    FixStep(lines, m);
    if n < m - 1 {
      LineAt(lines, m - 1, n);
    } else {
      LastUntouched(lines, m);
      KeptSoFar(lines, n, Side(lines, false)[n]);
      GetsBlankIs(lines, n);
    }
  }

  lemma GetsBlankIs(lines: seq<Line>, n: nat)
    requires n < |Side(lines, true)| && n < |Side(lines, false)|
    ensures GetsBlank(lines, n)
       <==> OneBlankMore(FixUpTo(lines, n)[Side(lines, true)[n]].text, lines[Side(lines, false)[n]].text)
  {
  }

  /** A line changes only by getting a blank. */
  lemma ChangedBy(lines: seq<Line>, m: nat, k: nat)
    requires m <= |Side(lines, true)| && m <= |Side(lines, false)| && k < |lines|
    ensures FixUpTo(lines, m)[k] != lines[k] ==>
      exists n :: 0 <= n < m && Side(lines, false)[n] == k && GetsBlank(lines, n)
  {
    if FixUpTo(lines, m)[k] != lines[k] {
      KeptSoFar(lines, m, k);
      var n :| 0 <= n < m && Side(lines, false)[n] == k;
      LineAt(lines, m, n);
      hide *;
    }
  }

  /** How many pairs of lines a chunk compares. */
  function Pairs(lines: seq<Line>): (n: nat)
    ensures n <= |Side(lines, true)| && n <= |Side(lines, false)|
    ensures FixLines(lines) == FixUpTo(lines, n)
  {
    if Raises(lines) then |Side(lines, false)| else |Side(lines, true)|
  }

  // ------------------------------------------------------ the source side

  /** The text of every line on the source side is kept. */
  ghost predicate SourceKept(before: seq<Line>, after: seq<Line>) {
    && |after| == |before|
    && forall k :: 0 <= k < |before| && OnSrcSide(before[k].kind) ==> after[k].text == before[k].text
  }

  /** Some context line, which is on both sides, gets a blank. */
  ghost predicate ContextGetsBlank(lines: seq<Line>) {
    exists n :: 0 <= n < |Side(lines, false)| && GetsBlank(lines, n) && lines[Side(lines, false)[n]].kind == Both
  }

  /** The source side of a chunk is kept exactly when no context line gets a blank. */
  lemma SourceKeptExactlyWhen(lines: seq<Line>)
    ensures SourceKept(lines, FixLines(lines)) <==> !ContextGetsBlank(lines)
  {
    var after := FixLines(lines);
    if n :| 0 <= n < |Side(lines, false)| && GetsBlank(lines, n) && lines[Side(lines, false)[n]].kind == Both {
      LineAt(lines, Pairs(lines), n);
      var k := Side(lines, false)[n];
      assert OnSrcSide(lines[k].kind) && after[k].text != lines[k].text;
      hide *;
    } else {
      forall k | 0 <= k < |lines| && OnSrcSide(lines[k].kind) ensures after[k].text == lines[k].text {
        ChangedBy(lines, Pairs(lines), k);
      }
      hide *;
    }
  }

  // ------------------------------------------------------ writing it again

  /** An added line `++` gets a space, and would be written like the name of a file. */
  ghost predicate MakesTitle(lines: seq<Line>) {
    exists n :: 0 <= n < |Side(lines, false)| && GetsBlank(lines, n)
             && lines[Side(lines, false)[n]] == Line(Dst, "++")
             && FixUpTo(lines, n)[Side(lines, true)[n]].text == "++ "
  }

  /** A clean line stays clean with one blank more, except for that one. */
  lemma StillClean(before: Line, s: string)
    requires CleanLine(before) && OnDstSide(before.kind) && OneBlankMore(s, before.text)
    ensures CleanLine(before.(text := s)) <==> !(before == Line(Dst, "++") && s == "++ ")
  {
  }

  /** A clean chunk stays clean exactly when no added line becomes `++ `. */
  lemma ChunkCleanExactlyWhen(lines: seq<Line>)
    requires CleanLines(lines)
    ensures CleanLines(FixLines(lines)) <==> !MakesTitle(lines)
  {
    var after := FixLines(lines);
    if n :| 0 <= n < |Side(lines, false)| && GetsBlank(lines, n) && lines[Side(lines, false)[n]] == Line(Dst, "++")
            && FixUpTo(lines, n)[Side(lines, true)[n]].text == "++ " {
      LineAt(lines, Pairs(lines), n);
      assert !CleanLine(after[Side(lines, false)[n]]);
      hide *;
    } else {
      forall k | 0 <= k < |lines| ensures CleanLine(after[k]) {
        if after[k] != lines[k] {
          ChangedBy(lines, Pairs(lines), k);
          var n :| 0 <= n < Pairs(lines) && Side(lines, false)[n] == k && GetsBlank(lines, n);
          LineAt(lines, Pairs(lines), n);
          Places(lines, Pairs(lines), n);
          StillClean(lines[k], after[k].text);
        }
      }
      hide *;
    }
  }

  /** Some chunk that is reached makes a title. */
  ghost predicate SomeTitleMade(ps: seq<FilePatch>) {
    exists i, a :: 0 <= i < |ps| && 0 <= a < |ps[i].chunks| && Reached(ps, i, a) && MakesTitle(ps[i].chunks[a].lines)
  }

  lemma ChunkCleanAt(ps: seq<FilePatch>, i: nat, a: nat)
    requires Clean(ps) && i < |ps| && a < |ps[i].chunks|
    ensures |FixPatches(ps).0[i].chunks| == |ps[i].chunks|
    ensures CleanChunk(FixPatches(ps).0[i].chunks[a]) <==> !(Reached(ps, i, a) && MakesTitle(ps[i].chunks[a].lines))
  {
    assert CleanPatch(ps[i]) && CleanChunk(ps[i].chunks[a]);
    FixedAt(ps, i, a);
    ChunkCleanExactlyWhen(ps[i].chunks[a].lines);
    hide FixPatches, FixLines, Reached, MakesTitle, Clean, CleanPatch, CleanLines;
  }

  lemma FixedPatchClean(ps: seq<FilePatch>, i: nat)
    requires Clean(ps) && i < |ps|
    ensures CleanPatch(FixPatches(ps).0[i])
       <==> forall a :: 0 <= a < |ps[i].chunks| ==> !(Reached(ps, i, a) && MakesTitle(ps[i].chunks[a].lines))
  {
    FixedInPatches(ps, i);
    assert CleanPatch(ps[i]);
    forall a | 0 <= a < |ps[i].chunks|
      ensures CleanChunk(FixPatches(ps).0[i].chunks[a]) <==> !(Reached(ps, i, a) && MakesTitle(ps[i].chunks[a].lines))
    {
      ChunkCleanAt(ps, i, a);
    }
    hide FixPatches, FixChunks, Reached, MakesTitle, Clean, CleanChunk, NoPatchBefore;
  }

  /** Rewritten patches survive being written and read back exactly when no added line `++` that is
      reached gets a space. */
  lemma RewrittenSurvivesExactlyWhen(ps: seq<FilePatch>)
    requires Clean(ps)
    ensures Survives(FixPatches(ps).0) <==> !SomeTitleMade(ps)
  {
    SurvivesExactlyWhenClean(FixPatches(ps).0);
    forall i | 0 <= i < |ps|
      ensures CleanPatch(FixPatches(ps).0[i])
         <==> forall a :: 0 <= a < |ps[i].chunks| ==> !(Reached(ps, i, a) && MakesTitle(ps[i].chunks[a].lines))
    {
      FixedPatchClean(ps, i);
    }
    hide Survives, FixPatches, Reached, MakesTitle, CleanPatch;
  }

  /** The first patch alone, which is the one the program writes. */
  lemma FirstSurvivesExactlyWhen(ps: seq<FilePatch>)
    requires Clean(ps) && ps != []
    ensures Survives([FixPatches(ps).0[0]])
       <==> forall a :: 0 <= a < |ps[0].chunks| ==> !(Reached(ps, 0, a) && MakesTitle(ps[0].chunks[a].lines))
  {
    var first := [FixPatches(ps).0[0]];
    FixedPatchClean(ps, 0);
    assert Clean(first) <==> CleanPatch(first[0]);
    hide *;
    SurvivesExactlyWhenClean(first);
  }

  /** The same of what has been read from any text. */
  lemma ReadAndRewrittenSurvivesExactlyWhen(lines: seq<string>)
    requires ParseText(lines).Some?
    ensures Survives(FixPatches(ParseText(lines).value).0) <==> !SomeTitleMade(ParseText(lines).value)
  {
    ParsedIsClean(lines);
    RewrittenSurvivesExactlyWhen(ParseText(lines).value);
    hide *;
  }

  ghost predicate SourceSidesKept(before: seq<FilePatch>, after: seq<FilePatch>) {
    && |after| == |before|
    && (forall i :: 0 <= i < |before| ==> |after[i].chunks| == |before[i].chunks|)
    && forall i, a :: 0 <= i < |before| && 0 <= a < |before[i].chunks| ==>
         SourceKept(before[i].chunks[a].lines, after[i].chunks[a].lines)
  }

  /** Some context line of a chunk that is reached gets a blank. */
  ghost predicate SomeContextGetsBlank(ps: seq<FilePatch>) {
    exists i, a :: 0 <= i < |ps| && 0 <= a < |ps[i].chunks| && Reached(ps, i, a)
      && ContextGetsBlank(ps[i].chunks[a].lines)
  }

  lemma SourceKeptAt(ps: seq<FilePatch>, i: nat, a: nat)
    requires i < |ps| && a < |ps[i].chunks|
    ensures |FixPatches(ps).0[i].chunks| == |ps[i].chunks|
    ensures SourceKept(ps[i].chunks[a].lines, FixPatches(ps).0[i].chunks[a].lines)
       <==> !(Reached(ps, i, a) && ContextGetsBlank(ps[i].chunks[a].lines))
  {
    FixedAt(ps, i, a);
    SourceKeptExactlyWhen(ps[i].chunks[a].lines);
    hide FixPatches, FixLines, Reached, ContextGetsBlank;
  }

  /** The source side of every chunk is kept exactly when no context line that is reached gets a blank. */
  lemma SourceSidesKeptExactlyWhen(ps: seq<FilePatch>)
    ensures SourceSidesKept(ps, FixPatches(ps).0) <==> !SomeContextGetsBlank(ps)
  {
    hide FixPatches, FixChunks, Reached, ContextGetsBlank, SourceKept, NoPatchBefore;
    forall i | 0 <= i < |ps| ensures |FixPatches(ps).0[i].chunks| == |ps[i].chunks| { FixedInPatches(ps, i); }
    forall i, a | 0 <= i < |ps| && 0 <= a < |ps[i].chunks|
      ensures SourceKept(ps[i].chunks[a].lines, FixPatches(ps).0[i].chunks[a].lines)
         <==> !(Reached(ps, i, a) && ContextGetsBlank(ps[i].chunks[a].lines))
    {
      SourceKeptAt(ps, i, a);
    }
  }

  // ------------------------------------------------------------- two inputs

  /** A removed line that drops a blank against an added one, and nothing else. */
  lemma OnePair(s: string, d: string)
    requires OneBlankMore(s, d)
    ensures
      var lines := [Line(Src, s), Line(Dst, d)];
      && !Raises(lines) && FixLines(lines) == [Line(Src, s), Line(Dst, s)]
      && (s == "++ " && d == "++" ==> MakesTitle(lines))
  {
    var lines := [Line(Src, s), Line(Dst, d)];
    SidesOfTwo(lines[0], lines[1], true);
    SidesOfTwo(lines[0], lines[1], false);
    OneAdded(lines[0], lines[1]);
    assert GetsBlank(lines, 0) by { hide Side, OneBlankMore; }
    hide Side, FixUpTo, GetsBlank, OneBlankMore;
    assert FixLines(lines) == FixUpTo(lines, 1);
  }

  lemma OneAdded(s: Line, d: Line)
    requires s.kind == Src && d.kind == Dst && OneBlankMore(s.text, d.text)
    requires Side([s, d], true) == [0] && Side([s, d], false) == [1]
    ensures FixUpTo([s, d], 1) == [s, Line(Dst, s.text)]
  {
    hide Side, OneBlankMore;
    assert FixUpTo([s, d], 0) == [s, d];
    FixStep([s, d], 1);
  }

  /** A clean patch set, `++ ` replaced by `++`, that does not survive the rewriting. */
  lemma RewrittenDoesNotSurvive()
    ensures
      var ps := [FilePatch("a", "b", [Chunk(1, 1, [Line(Src, "++ "), Line(Dst, "++")])])];
      Survives(ps) && !Survives(FixPatches(ps).0)
  {
    var lines := [Line(Src, "++ "), Line(Dst, "++")];
    var ps := [FilePatch("a", "b", [Chunk(1, 1, lines)])];
    assert "++ "[..2] == "++" && OneBlankMore("++ ", "++");
    assert "-- "[0] != "++ "[0] && !("-- " <= "++ ");
    assert |"++ "| == 3 && |"++"| == 2 && !("++ " <= "++");
    assert CleanLine(lines[0]) && CleanLine(lines[1]) && CleanLines(lines);
    assert CleanChunk(ps[0].chunks[0]) && CleanPatch(ps[0]) && Clean(ps);
    assert ps[..0] == [] && ps[0].chunks[..0] == [] && Reached(ps, 0, 0);
    OnePair("++ ", "++");
    assert ps[0].chunks[0].lines == lines;
    hide *;
    SurvivesExactlyWhenClean(ps);
    RewrittenSurvivesExactlyWhen(ps);
    TitleMade(ps, 0, 0);
  }

  lemma TitleMade(ps: seq<FilePatch>, i: nat, a: nat)
    requires i < |ps| && a < |ps[i].chunks| && Reached(ps, i, a) && MakesTitle(ps[i].chunks[a].lines)
    ensures SomeTitleMade(ps)
  {
  }

  /** A context line gets a blank, and the source side changes. */
  lemma SourceSideChanges()
    ensures
      var lines := [Line(Src, "x "), Line(Both, "x")];
      ContextGetsBlank(lines) && !SourceKept(lines, FixLines(lines))
  {
    var lines := [Line(Src, "x "), Line(Both, "x")];
    assert OneBlankMore("x ", "x");
    SidesOfTwo(lines[0], lines[1], true);
    SidesOfTwo(lines[0], lines[1], false);
    hide Side, OneBlankMore;
    assert FixUpTo(lines, 0) == lines;
    assert GetsBlank(lines, 0);
    SourceKeptExactlyWhen(lines);
    hide FixUpTo, SourceKept, FixLines;
  }
}
