/** What utils/check-style.py does to the lines of a patch that only drop a trailing blank. */
module PatchBlanks {
  import opened PatchText

  predicate OnSide(k: Kind, src: bool) {
    if src then OnSrcSide(k) else OnDstSide(k)
  }

  /** The numbers of the lines on one side, in order. */
  function Side(lines: seq<Line>, src: bool): (r: seq<nat>)
    ensures forall i :: 0 <= i < |r| ==> r[i] < |lines| && OnSide(lines[r[i]].kind, src)
    ensures forall i, j :: 0 <= i < j < |r| ==> r[i] < r[j]
  {
    if lines == [] then []
    else
      var n := |lines| - 1;
      Side(lines[..n], src) + if OnSide(lines[n].kind, src) then [n] else []
  }

  /** None is missing: removed and context lines are on the source side, added and context lines on the other. */
  lemma {:induction false} SideComplete(lines: seq<Line>, src: bool, i: nat)
    ensures i in Side(lines, src)
       <==> i < |lines| && (lines[i].kind == Both || lines[i].kind == if src then Src else Dst)
  {
    if lines != [] { SideComplete(lines[..|lines| - 1], src, i); }
  }

  lemma {:induction false} SideCounts(lines: seq<Line>, src: bool)
    ensures |Side(lines, src)| == if src then SrcCount(lines) else DstCount(lines)
  {
    if lines != [] { SideCounts(lines[..|lines| - 1], src); }
  }

  predicate Blank(c: char) {
    c == ' ' || c == '\t'
  }

  /** The tabulator and the blank. */
  lemma BlankCharacters(c: char)
    ensures Blank(c) <==> c as int in {9, 32}
  {
  }

  /** The first text is the second with one blank more. */
  predicate OneBlankMore(s: string, d: string) {
    s != "" && Blank(s[|s| - 1]) && s[..|s| - 1] == d
  }

  /** One line compared with another, which may get a blank. */
  function FixAt(lines: seq<Line>, from: nat, at: nat): (r: seq<Line>)
    requires from < |lines| && at < |lines|
    ensures |r| == |lines|
  {
    var s := lines[from].text;
    if OneBlankMore(s, lines[at].text) then lines[at := lines[at].(text := lines[at].text + s[|s| - 1..])] else lines
  }

  /** The first n lines of the source side compared with the first n of the other, in order. */
  function FixUpTo(lines: seq<Line>, n: nat): (r: seq<Line>)
    requires n <= |Side(lines, true)| && n <= |Side(lines, false)|
    ensures |r| == |lines|
  {
    if n == 0 then lines else FixAt(FixUpTo(lines, n - 1), Side(lines, true)[n - 1], Side(lines, false)[n - 1])
  }

  /** More lines on the source side than on the other, which ends everything with an exception. */
  predicate Raises(lines: seq<Line>) {
    |Side(lines, true)| > |Side(lines, false)|
  }

  lemma RaisesExactly(lines: seq<Line>)
    ensures Raises(lines) <==> SrcCount(lines) > DstCount(lines)
  {
    SideCounts(lines, true);
    SideCounts(lines, false);
  }

  function FixLines(lines: seq<Line>): seq<Line> {
    FixUpTo(lines, if Raises(lines) then |Side(lines, false)| else |Side(lines, true)|)
  }

  function FixChunk(c: Chunk): Chunk {
    c.(lines := FixLines(c.lines))
  }

  /** The chunks are done in order, up to and with the first that raises. */
  function FixChunks(chunks: seq<Chunk>): (r: (seq<Chunk>, bool))
    ensures |r.0| == |chunks|
  {
    if chunks == [] then ([], false)
    else if Raises(chunks[0].lines) then ([FixChunk(chunks[0])] + chunks[1..], true)
    else
      var (rest, raised) := FixChunks(chunks[1..]);
      ([FixChunk(chunks[0])] + rest, raised)
  }

  function FixPatches(ps: seq<FilePatch>): (r: (seq<FilePatch>, bool))
    ensures |r.0| == |ps|
  {
    if ps == [] then ([], false)
    else
      var (chunks, raised) := FixChunks(ps[0].chunks);
      var first := ps[0].(chunks := chunks);
      if raised then ([first] + ps[1..], true)
      else
        var (rest, later) := FixPatches(ps[1..]);
        ([first] + rest, later)
  }

  lemma ChunksUnfold(chunks: seq<Chunk>)
    requires chunks != []
    ensures FixChunks(chunks)
         == if Raises(chunks[0].lines) then ([FixChunk(chunks[0])] + chunks[1..], true)
            else ([FixChunk(chunks[0])] + FixChunks(chunks[1..]).0, FixChunks(chunks[1..]).1)
  {
  }

  lemma PatchesUnfold(ps: seq<FilePatch>)
    requires ps != []
    ensures
      var first := ps[0].(chunks := FixChunks(ps[0].chunks).0);
      FixPatches(ps)
      == if FixChunks(ps[0].chunks).1 then ([first] + ps[1..], true)
         else ([first] + FixPatches(ps[1..]).0, FixPatches(ps[1..]).1)
  {
  }

  // ------------------------------------------------------------------ laws

  /** The line is as it was, or is on the destination side and has one blank more. */
  ghost predicate KeptUpToABlank(before: Line, after: Line) {
    after == before
    || (OnDstSide(before.kind) && after.kind == before.kind && OneBlankMore(after.text, before.text))
  }

  /** A line that is changed becomes the text of the line it is compared with. */
  lemma FixStep(lines: seq<Line>, n: nat)
    requires 0 < n <= |Side(lines, true)| && n <= |Side(lines, false)|
    ensures
      var before, after := FixUpTo(lines, n - 1), FixUpTo(lines, n);
      var s, at := before[Side(lines, true)[n - 1]].text, Side(lines, false)[n - 1];
      && |before| == |after| == |lines|
      && after[at] == (if OneBlankMore(s, before[at].text) then before[at].(text := s) else before[at])
      && forall k :: 0 <= k < |lines| && k != at ==> after[k] == before[k]
  {
  }

  ghost predicate Untouched(side: seq<nat>, n: nat, k: nat)
    requires n <= |side|
  {
    forall j :: 0 <= j < n ==> side[j] != k
  }

  lemma LastUntouched(lines: seq<Line>, n: nat)
    requires 0 < n <= |Side(lines, false)|
    ensures Untouched(Side(lines, false), n - 1, Side(lines, false)[n - 1])
    ensures Side(lines, false)[n - 1] < |lines| && OnDstSide(lines[Side(lines, false)[n - 1]].kind)
    ensures forall k :: Untouched(Side(lines, false), n, k) ==>
                          Untouched(Side(lines, false), n - 1, k) && k != Side(lines, false)[n - 1]
  {
  }

  /** After n pairs, the first n lines of the destination side may have changed, the others not. */
  lemma {:induction false} KeptSoFar(lines: seq<Line>, n: nat, k: nat)
    requires n <= |Side(lines, true)| && n <= |Side(lines, false)| && k < |lines|
    ensures |FixUpTo(lines, n)| == |lines| && KeptUpToABlank(lines[k], FixUpTo(lines, n)[k])
    ensures Untouched(Side(lines, false), n, k) ==> FixUpTo(lines, n)[k] == lines[k]
  {
    if n > 0 {
      KeptSoFar(lines, n - 1, k);
      FixStep(lines, n);
      LastUntouched(lines, n);
      hide Side, FixUpTo, Untouched, OneBlankMore, OnDstSide;
      var before, after, at := FixUpTo(lines, n - 1), FixUpTo(lines, n), Side(lines, false)[n - 1];
      if k != at { assert after[k] == before[k]; }
    }
  }

  /** Every line keeps its kind, and its text up to one blank added on the destination side. */
  lemma LinesKept(lines: seq<Line>, k: nat)
    requires k < |lines|
    ensures |FixLines(lines)| == |lines| && KeptUpToABlank(lines[k], FixLines(lines)[k])
  {
    KeptSoFar(lines, if Raises(lines) then |Side(lines, false)| else |Side(lines, true)|, k);
  }

  lemma RemovedKept(lines: seq<Line>, n: nat, k: nat)
    requires n <= |Side(lines, true)| && n <= |Side(lines, false)| && k < |lines| && lines[k].kind == Src
    ensures FixUpTo(lines, n)[k] == lines[k]
  {
  }

  /** What a removed line and the line it is compared with come to. */
  ghost predicate PairIsDone(lines: seq<Line>, after: seq<Line>, from: nat, at: nat)
    requires |after| == |lines| && from < |lines| && at < |lines|
  {
    && after[from] == lines[from]
    && after[at].text == if OneBlankMore(lines[from].text, lines[at].text) then lines[from].text else lines[at].text
  }

  lemma LastBefore(lines: seq<Line>, n: nat)
    requires 0 < n <= |Side(lines, true)| && n <= |Side(lines, false)|
    ensures FixUpTo(lines, n - 1)[Side(lines, false)[n - 1]] == lines[Side(lines, false)[n - 1]]
  {
    LastUntouched(lines, n);
    KeptSoFar(lines, n - 1, Side(lines, false)[n - 1]);
    hide Side, FixUpTo;
  }

  lemma LastPair(lines: seq<Line>, n: nat)
    requires 0 < n <= |Side(lines, true)| && n <= |Side(lines, false)|
    requires lines[Side(lines, true)[n - 1]].kind == Src
    ensures PairIsDone(lines, FixUpTo(lines, n), Side(lines, true)[n - 1], Side(lines, false)[n - 1])
  {
    FixStep(lines, n);
    LastBefore(lines, n);
    RemovedKept(lines, n, Side(lines, true)[n - 1]);
    RemovedKept(lines, n - 1, Side(lines, true)[n - 1]);
    hide Side, FixUpTo, OneBlankMore;
  }

  lemma EarlierPair(lines: seq<Line>, n: nat, i: nat)
    requires i < n - 1 && n <= |Side(lines, true)| && n <= |Side(lines, false)|
    requires lines[Side(lines, true)[i]].kind == Src
    requires PairIsDone(lines, FixUpTo(lines, n - 1), Side(lines, true)[i], Side(lines, false)[i])
    ensures PairIsDone(lines, FixUpTo(lines, n), Side(lines, true)[i], Side(lines, false)[i])
  {
  }

  /** A removed line is as it was, and the line it is compared with has become its text if that was
      one blank more. */
  lemma {:induction false} PairDone(lines: seq<Line>, n: nat, i: nat)
    requires i < n <= |Side(lines, true)| && n <= |Side(lines, false)|
    requires lines[Side(lines, true)[i]].kind == Src
    ensures PairIsDone(lines, FixUpTo(lines, n), Side(lines, true)[i], Side(lines, false)[i])
  {
    if i < n - 1 {
      PairDone(lines, n - 1, i);
      EarlierPair(lines, n, i);
    } else {
      LastPair(lines, n);
    }
    hide Side, FixUpTo, PairIsDone;
  }

  /** Afterwards no removed line is the line at the same place on the other side with one blank more. */
  lemma NoTrailingBlankDropped(lines: seq<Line>, i: nat)
    requires !Raises(lines) && i < |Side(lines, true)| && lines[Side(lines, true)[i]].kind == Src
    ensures
      var after := FixLines(lines);
      !OneBlankMore(after[Side(lines, true)[i]].text, after[Side(lines, false)[i]].text)
  {
    PairDone(lines, |Side(lines, true)|, i);
  }

  ghost predicate ChunkKept(before: Chunk, after: Chunk) {
    && after.srcPos == before.srcPos && after.dstPos == before.dstPos && |after.lines| == |before.lines|
    && forall k :: 0 <= k < |before.lines| ==> KeptUpToABlank(before.lines[k], after.lines[k])
  }

  ghost predicate ChunksKept(before: seq<Chunk>, after: seq<Chunk>) {
    |after| == |before| && forall a :: 0 <= a < |before| ==> ChunkKept(before[a], after[a])
  }

  ghost predicate PatchKept(before: FilePatch, after: FilePatch) {
    after.src == before.src && after.dst == before.dst && ChunksKept(before.chunks, after.chunks)
  }

  lemma FixedChunkKept(c: Chunk)
    ensures ChunkKept(c, FixChunk(c)) && ChunkKept(c, c)
  {
    forall k | 0 <= k < |c.lines| ensures KeptUpToABlank(c.lines[k], FixLines(c.lines)[k]) { LinesKept(c.lines, k); }
  }

  lemma {:induction false} FixedChunksKept(chunks: seq<Chunk>)
    ensures ChunksKept(chunks, FixChunks(chunks).0) && ChunksKept(chunks, chunks)
  {
    forall a | 0 <= a < |chunks| ensures ChunkKept(chunks[a], chunks[a]) { FixedChunkKept(chunks[a]); }
    if chunks != [] {
      FixedChunkKept(chunks[0]);
      FixedChunksKept(chunks[1..]);
      assert forall a :: 0 < a < |chunks| ==> chunks[a] == chunks[1..][a - 1];
      hide FixChunk, ChunkKept;
    }
  }

  /** Files, positions, kinds and the number of lines are kept, and every text up to one blank added to a
      line of the destination side. */
  lemma {:induction false} FixedPatchesKept(ps: seq<FilePatch>)
    ensures forall i :: 0 <= i < |ps| ==> PatchKept(ps[i], FixPatches(ps).0[i])
  {
    forall i | 0 <= i < |ps| ensures PatchKept(ps[i], ps[i]) { FixedChunksKept(ps[i].chunks); }
    if ps != [] {
      FixedChunksKept(ps[0].chunks);
      FixedPatchesKept(ps[1..]);
      assert forall i :: 0 < i < |ps| ==> ps[i] == ps[1..][i - 1];
      hide FixChunks, ChunksKept;
    }
  }

  ghost predicate SomeChunkRaises(chunks: seq<Chunk>) {
    exists a :: 0 <= a < |chunks| && Raises(chunks[a].lines)
  }

  ghost predicate SomePatchRaises(ps: seq<FilePatch>) {
    exists i :: 0 <= i < |ps| && SomeChunkRaises(ps[i].chunks)
  }

  /** The rewriting of a patch stops early exactly when a chunk raises. */
  lemma {:induction false} ChunksDone(chunks: seq<Chunk>)
    ensures FixChunks(chunks).1 <==> SomeChunkRaises(chunks)
  {
    if chunks != [] {
      ChunksDone(chunks[1..]);
      ChunksUnfold(chunks);
      hide *;
    }
  }

  lemma {:induction false} PatchesDone(ps: seq<FilePatch>)
    ensures FixPatches(ps).1 <==> SomePatchRaises(ps)
  {
    if ps != [] {
      ChunksDone(ps[0].chunks);
      PatchesDone(ps[1..]);
      PatchesUnfold(ps);
      hide *;
    }
  }

  // ---------------------------------------------------- which chunks are done

  ghost predicate NoneBefore(chunks: seq<Chunk>, a: nat)
    requires a <= |chunks|
  {
    !SomeChunkRaises(chunks[..a])
  }

  ghost predicate NoPatchBefore(ps: seq<FilePatch>, i: nat)
    requires i <= |ps|
  {
    !SomePatchRaises(ps[..i])
  }

  lemma NoneBeforeFirst(chunks: seq<Chunk>, a: nat)
    requires a <= |chunks|
    ensures a == 0 ==> NoneBefore(chunks, a)
    ensures a > 0 ==> (NoneBefore(chunks, a) <==> !Raises(chunks[0].lines) && NoneBefore(chunks[1..], a - 1))
  {
    if a > 0 {
      assert chunks[..a][1..] == chunks[1..][..a - 1];
      hide SomeChunkRaises, Raises;
    }
  }

  lemma NoPatchBeforeFirst(ps: seq<FilePatch>, i: nat)
    requires i <= |ps|
    ensures i == 0 ==> NoPatchBefore(ps, i)
    ensures i > 0 ==> (NoPatchBefore(ps, i) <==> !SomeChunkRaises(ps[0].chunks) && NoPatchBefore(ps[1..], i - 1))
  {
    if i > 0 {
      assert ps[..i][1..] == ps[1..][..i - 1];
      hide SomePatchRaises, SomeChunkRaises;
    }
  }

  lemma {:induction false} FixedInChunks(chunks: seq<Chunk>, a: nat)
    requires a < |chunks|
    ensures FixChunks(chunks).0[a] == if NoneBefore(chunks, a) then FixChunk(chunks[a]) else chunks[a]
    decreases |chunks|
  {
    hide *;
    ChunksUnfold(chunks);
    NoneBeforeFirst(chunks, a);
    if a > 0 {
      assert chunks[1..][a - 1] == chunks[a];
      FixedInChunks(chunks[1..], a - 1);
    }
  }

  lemma {:induction false} FixedInPatches(ps: seq<FilePatch>, i: nat)
    requires i < |ps|
    ensures FixPatches(ps).0[i]
         == if NoPatchBefore(ps, i) then ps[i].(chunks := FixChunks(ps[i].chunks).0) else ps[i]
    decreases |ps|
  {
    hide *;
    PatchesUnfold(ps);
    ChunksDone(ps[0].chunks);
    NoPatchBeforeFirst(ps, i);
    if i > 0 {
      assert ps[1..][i - 1] == ps[i];
      FixedInPatches(ps[1..], i - 1);
    }
  }

  /** The chunk is done: none before it, in its patch or an earlier one, raises. */
  ghost predicate Reached(ps: seq<FilePatch>, i: nat, a: nat)
    requires i < |ps| && a < |ps[i].chunks|
  {
    NoPatchBefore(ps, i) && NoneBefore(ps[i].chunks, a)
  }

  /** Every chunk that is reached is rewritten, and every other one is as it was. */
  lemma FixedAt(ps: seq<FilePatch>, i: nat, a: nat)
    requires i < |ps| && a < |ps[i].chunks|
    ensures FixPatches(ps).0[i].src == ps[i].src && FixPatches(ps).0[i].dst == ps[i].dst
    ensures |FixPatches(ps).0[i].chunks| == |ps[i].chunks|
    ensures FixPatches(ps).0[i].chunks[a] == if Reached(ps, i, a) then FixChunk(ps[i].chunks[a]) else ps[i].chunks[a]
  {
    FixedInPatches(ps, i);
    FixedInChunks(ps[i].chunks, a);
    hide FixPatches, FixChunks, FixChunk, NoneBefore, NoPatchBefore;
  }

  /** The i-th line on the source side is removed, and is the i-th of the other with one blank more. */
  ghost predicate BlankDropped(lines: seq<Line>, i: nat) {
    && i < |Side(lines, true)| && i < |Side(lines, false)| && lines[Side(lines, true)[i]].kind == Src
    && OneBlankMore(lines[Side(lines, true)[i]].text, lines[Side(lines, false)[i]].text)
  }

  /** The first text is the second with blanks more. */
  ghost predicate BlanksMore(s: string, d: string) {
    d < s && forall k :: |d| <= k < |s| ==> Blank(s[k])
  }

  /** The i-th line on the source side is removed, and is the i-th of the other with blanks more. */
  ghost predicate BlanksDropped(lines: seq<Line>, i: nat) {
    && i < |Side(lines, true)| && i < |Side(lines, false)| && lines[Side(lines, true)[i]].kind == Src
    && BlanksMore(lines[Side(lines, true)[i]].text, lines[Side(lines, false)[i]].text)
  }

  lemma {:induction false} SameSides(a: seq<Line>, b: seq<Line>, src: bool)
    requires |a| == |b| && forall k :: 0 <= k < |a| ==> a[k].kind == b[k].kind
    ensures Side(a, src) == Side(b, src)
    decreases |a|
  {
    if a != [] { SameSides(a[..|a| - 1], b[..|b| - 1], src); }
  }

  lemma NoneDroppedIn(lines: seq<Line>, n: nat)
    requires !Raises(lines)
    ensures !BlankDropped(FixLines(lines), n)
  {
    forall k | 0 <= k < |lines| ensures FixLines(lines)[k].kind == lines[k].kind { LinesKept(lines, k); }
    SameSides(FixLines(lines), lines, true);
    SameSides(FixLines(lines), lines, false);
    if n < |Side(lines, true)| && lines[Side(lines, true)[n]].kind == Src { NoTrailingBlankDropped(lines, n); }
    hide Side, FixLines;
  }

  /** When no chunk raises, no dropped trailing blank is left anywhere. */
  lemma NoneDropped(ps: seq<FilePatch>, i: nat, a: nat, n: nat)
    requires !SomePatchRaises(ps) && i < |ps| && a < |ps[i].chunks|
    ensures |FixPatches(ps).0[i].chunks| == |ps[i].chunks| && !BlankDropped(FixPatches(ps).0[i].chunks[a].lines, n)
  {
    FixedAt(ps, i, a);
    NoneDroppedIn(ps[i].chunks[a].lines, n);
    hide FixPatches, BlankDropped, FixLines, Reached;
  }

  lemma OneIsBlanks(s: string, d: string)
    ensures OneBlankMore(s, d) <==> BlanksMore(s, d) && |s| == |d| + 1
  {
  }

  /** In a chunk that is rewritten, a pair is left that differs only in trailing blanks exactly when it
      differed in two or more. */
  lemma BlanksLeftIn(lines: seq<Line>, n: nat)
    ensures BlanksDropped(FixLines(lines), n) <==> BlanksDropped(lines, n) && !BlankDropped(lines, n)
  {
    forall k | 0 <= k < |lines| ensures FixLines(lines)[k].kind == lines[k].kind { LinesKept(lines, k); }
    SameSides(FixLines(lines), lines, true);
    SameSides(FixLines(lines), lines, false);
    if n < |Side(lines, true)| && n < |Side(lines, false)| && lines[Side(lines, true)[n]].kind == Src {
      PairDone(lines, if Raises(lines) then |Side(lines, false)| else |Side(lines, true)|, n);
      OneIsBlanks(lines[Side(lines, true)[n]].text, lines[Side(lines, false)[n]].text);
    }
    hide Side, FixLines, FixUpTo, OneBlankMore;
  }

  /** Only blanks are dropped at the n-th pair of a chunk of a patch. */
  ghost predicate BlanksAt(ps: seq<FilePatch>, i: nat, a: nat, n: nat) {
    i < |ps| && a < |ps[i].chunks| && BlanksDropped(ps[i].chunks[a].lines, n)
  }

  /** It is a single one, in a chunk with none before it that raises. */
  ghost predicate BlankAt(ps: seq<FilePatch>, i: nat, a: nat, n: nat) {
    i < |ps| && a < |ps[i].chunks| && Reached(ps, i, a) && BlankDropped(ps[i].chunks[a].lines, n)
  }

  /** Where pairs are left that differ only in trailing blanks: exactly where they differed in two or more,
      or come after a chunk that raises. */
  lemma BlanksLeftAt(ps: seq<FilePatch>, i: nat, a: nat, n: nat)
    ensures BlanksAt(FixPatches(ps).0, i, a, n) <==> BlanksAt(ps, i, a, n) && !BlankAt(ps, i, a, n)
  {
    if i < |ps| {
      FixedPatchesKept(ps);
      assert PatchKept(ps[i], FixPatches(ps).0[i]);
      if a < |ps[i].chunks| {
        FixedAt(ps, i, a);
        BlanksLeftIn(ps[i].chunks[a].lines, n);
      }
    }
    hide FixPatches, BlankDropped, BlanksDropped, FixLines, Reached, ChunkKept;
  }

  /** The rewriting is there to take back changes of trailing blanks.  None is left exactly when each is
      a single blank, in a chunk with none before it that raises. */
  lemma NoBlanksLeftExactlyWhen(ps: seq<FilePatch>)
    ensures (forall i, a, n :: !BlanksAt(FixPatches(ps).0, i, a, n))
       <==> forall i, a, n :: BlanksAt(ps, i, a, n) ==> BlankAt(ps, i, a, n)
  {
    hide BlanksDropped, BlankDropped, Reached, FixPatches;
    forall i, a, n ensures BlanksAt(FixPatches(ps).0, i, a, n) <==> BlanksAt(ps, i, a, n) && !BlankAt(ps, i, a, n) {
      BlanksLeftAt(ps, i, a, n);
    }
  }

  lemma SidesOfTwo(a: Line, b: Line, src: bool)
    ensures Side([a, b], src)
         == (if OnSide(a.kind, src) then [0] else []) + if OnSide(b.kind, src) then [1] else []
  {
    assert [a, b] == [] + [a] + [b] && [] + [a] == [a] && Side([], src) == [];
    hide Side;
  }

  /** A removed line against an added one, from which it differs in two or more trailing blanks. */
  lemma TwoMoreKept(s: Line, d: Line)
    requires s.kind == Src && d.kind == Dst && BlanksMore(s.text, d.text) && !OneBlankMore(s.text, d.text)
    ensures FixLines([s, d]) == [s, d] && !Raises([s, d]) && BlanksDropped([s, d], 0)
  {
    SidesOfTwo(s, d, true);
    SidesOfTwo(s, d, false);
    assert FixUpTo([s, d], 0) == [s, d];
    hide Side, OneBlankMore, BlanksMore;
  }

  /** Two blanks dropped at once stay dropped: the greedy first group takes the first of them. */
  lemma TwoBlanksKept()
    ensures var lines := [Line(Src, "x  "), Line(Dst, "x")];
      FixLines(lines) == lines && !Raises(lines) && BlanksDropped(lines, 0)
  {
    assert "x  "[..2] != "x";
    hide FixLines, Raises, BlanksDropped;
    TwoMoreKept(Line(Src, "x  "), Line(Dst, "x"));
  }
}
