/** Reading patches into objects, and the rewriting of lines in place (utils/check-style.py). */
module PatchReading {
  import opened Common
  import opened PatchText
  import opened PatchBlanks
  import opened Patches

  /** Where each object is, so that no two places can hold the same one. */
  datatype Places = Places(
    patchAt: map<Patch, nat>, chunkAt: map<PatchChunk, (nat, nat)>, lineAt: map<PatchChunkLine, (nat, nat, nat)>)

  /** The objects are as the values describe them, and each has its own place. */
  ghost predicate Placed(patchset: seq<Patch>, v: seq<FilePatch>, w: Places)
    reads w.patchAt.Keys, w.chunkAt.Keys, w.lineAt.Keys
  {
    && |patchset| == |v|
    && (forall i :: 0 <= i < |patchset| ==> PatchPlaced(patchset[i], v[i], w, i))
    && (forall i, a :: 0 <= i < |patchset| && 0 <= a < |patchset[i].chunks| ==>
          ChunkPlaced(patchset[i].chunks[a], v[i].chunks[a], w, i, a))
  }

  ghost predicate PatchPlaced(q: Patch, v: FilePatch, w: Places, i: nat)
    reads w.patchAt.Keys
  {
    q in w.patchAt && w.patchAt[q] == i && q.src == v.src && q.dst == v.dst && |q.chunks| == |v.chunks|
  }

  ghost predicate ChunkPlaced(c: PatchChunk, v: Chunk, w: Places, i: nat, a: nat)
    reads w.chunkAt.Keys, w.lineAt.Keys
  {
    && c in w.chunkAt && w.chunkAt[c] == (i, a)
    && c.srcPos == v.srcPos && c.dstPos == v.dstPos && |c.lines| == |v.lines|
    && forall k :: 0 <= k < |c.lines| ==> LinePlaced(c.lines[k], v.lines[k], w, i, a, k)
  }

  ghost predicate LinePlaced(l: PatchChunkLine, v: Line, w: Places, i: nat, a: nat, k: nat)
    reads w.lineAt.Keys
  {
    l in w.lineAt && w.lineAt[l] == (i, a, k) && l.kind == v.kind && l.text == v.text
  }

  /** The chunk that lines are added to is the one the value names. */
  ghost predicate AtChunk(patchset: seq<Patch>, p: Parser, currentChunk: PatchChunk?)
    reads patchset
  {
    match p.at
    case None => currentChunk == null
    case Some((i, a)) => i < |patchset| && a < |patchset[i].chunks| && patchset[i].chunks[a] == currentChunk
  }

  ghost predicate Tracked(patchset: seq<Patch>, currentChunk: PatchChunk?, p: Parser, w: Places)
    reads patchset, w.patchAt.Keys, w.chunkAt.Keys, w.lineAt.Keys
  {
    ValidParser(p) && Placed(patchset, p.patches, w) && AtChunk(patchset, p, currentChunk)
  }

  method StartPatch(patchset: seq<Patch>, name: string, ghost currentChunk: PatchChunk?, ghost p: Parser,
                    ghost w: Places)
    returns (more: seq<Patch>, ghost w': Places)
    requires Tracked(patchset, currentChunk, p, w)
    ensures Tracked(more, currentChunk, AddPatch(p, name), w')
    ensures w'.chunkAt == w.chunkAt && w'.lineAt == w.lineAt && fresh(w'.patchAt.Keys - w.patchAt.Keys)
  {
    var q := new Patch();
    more := patchset + [q];
    q.SetSrc(name);
    w' := w.(patchAt := w.patchAt[q := |patchset|]);
    ghost var v := AddPatch(p, name).patches;
    forall j | 0 <= j < |more| ensures PatchPlaced(more[j], v[j], w', j) {
      hide ChunkPlaced;
      assert j < |patchset| ==> old(PatchPlaced(patchset[j], p.patches[j], w, j));
    }
    forall j, b | 0 <= j < |more| && 0 <= b < |more[j].chunks|
      ensures ChunkPlaced(more[j].chunks[b], v[j].chunks[b], w', j, b)
    {
      assert old(ChunkPlaced(patchset[j].chunks[b], p.patches[j].chunks[b], w, j, b));
    }
  }

  method NameDst(patchset: seq<Patch>, name: string, ghost currentChunk: PatchChunk?, ghost p: Parser, ghost w: Places)
    requires Tracked(patchset, currentChunk, p, w) && patchset != []
    modifies patchset[|patchset| - 1]
    ensures p.patches != [] && Tracked(patchset, currentChunk, SetDst(p, name), w)
  {
    ghost var n, v := |patchset| - 1, SetDst(p, name).patches;
    hide SetDst, ValidParser;
    patchset[|patchset| - 1].SetDst(name);
    forall j | 0 <= j < |patchset|
      ensures PatchPlaced(patchset[j], v[j], w, j) && patchset[j].chunks == old(patchset[j].chunks)
    {
      assert old(PatchPlaced(patchset[j], p.patches[j], w, j));
    }
    forall j, b | 0 <= j < |patchset| && 0 <= b < |patchset[j].chunks|
      ensures ChunkPlaced(patchset[j].chunks[b], v[j].chunks[b], w, j, b)
    {
      assert old(ChunkPlaced(patchset[j].chunks[b], p.patches[j].chunks[b], w, j, b));
    }
  }

  method StartChunk(patchset: seq<Patch>, h: Header, ghost currentChunk: PatchChunk?, ghost p: Parser, ghost w: Places)
    returns (c: PatchChunk, ghost w': Places)
    requires Tracked(patchset, currentChunk, p, w) && patchset != []
    modifies patchset[|patchset| - 1]
    ensures p.patches != [] && Tracked(patchset, c, AddChunk(p, Chunk(h.srcPos, h.dstPos, [])), w')
    ensures w'.patchAt == w.patchAt && w'.lineAt == w.lineAt && fresh(w'.chunkAt.Keys - w.chunkAt.Keys)
  {
    hide *;
    c := new PatchChunk(h.srcPos, h.dstPos);
    w' := NextPlace(patchset, currentChunk, p, w, c);
    PlaceChunk(patchset, c, p, w');
    ChunkTracked(patchset, c, p, Chunk(h.srcPos, h.dstPos, []), w');
  }

  lemma ChunkTracked(patchset: seq<Patch>, c: PatchChunk, p: Parser, chunk: Chunk, w: Places)
    requires p.patches != [] && HeadsPlaced(patchset, AddChunk(p, chunk).patches, w)
    requires ListsPlaced(ChunkLists(patchset), AddChunk(p, chunk).patches, w)
    requires patchset != [] && patchset[|patchset| - 1].chunks != []
    requires var chunks := patchset[|patchset| - 1].chunks; chunks[|chunks| - 1] == c
    ensures Tracked(patchset, c, AddChunk(p, chunk), w)
  {
  }

  /** A place at the end of the last patch. */
  lemma NextPlace(patchset: seq<Patch>, currentChunk: PatchChunk?, p: Parser, w: Places, c: PatchChunk)
    returns (w': Places)
    requires Tracked(patchset, currentChunk, p, w) && patchset != [] && c !in w.chunkAt && c.lines == []
    ensures w'.patchAt == w.patchAt && w'.lineAt == w.lineAt && w'.chunkAt.Keys == w.chunkAt.Keys + {c}
    ensures HeadsPlaced(patchset, p.patches, w') && ListsPlaced(ChunkLists(patchset), p.patches, w')
    ensures var n := |patchset| - 1;
      ChunkPlaced(c, Chunk(c.srcPos, c.dstPos, []), w', n, |patchset[n].chunks|)
  {
    var n := |patchset| - 1;
    w' := w.(chunkAt := w.chunkAt[c := (n, |patchset[n].chunks|)]);
    MorePlaces(patchset, p.patches, w, w');
    PlacedParts(patchset, p.patches, w');
    EmptyChunkPlaced(c, w', n, |patchset[n].chunks|);
    hide Placed, HeadsPlaced, ListsPlaced, ChunkPlaced;
  }

  method PlaceChunk(patchset: seq<Patch>, c: PatchChunk, ghost p: Parser, ghost w: Places)
    requires HeadsPlaced(patchset, p.patches, w) && ListsPlaced(ChunkLists(patchset), p.patches, w) && patchset != []
    requires var n := |patchset| - 1;
      ChunkPlaced(c, Chunk(c.srcPos, c.dstPos, []), w, n, |patchset[n].chunks|)
    modifies patchset[|patchset| - 1]
    ensures p.patches != [] && HeadsPlaced(patchset, AddChunk(p, Chunk(c.srcPos, c.dstPos, [])).patches, w)
    ensures ListsPlaced(ChunkLists(patchset), AddChunk(p, Chunk(c.srcPos, c.dstPos, [])).patches, w)
    ensures patchset[|patchset| - 1].chunks == old(patchset[|patchset| - 1].chunks) + [c]
  {
    hide ChunkPlaced, ListsPlaced, AddChunk;
    ghost var n, lists := |patchset| - 1, ChunkLists(patchset);
    patchset[|patchset| - 1].AddChunk(c);
    assert ChunkLists(patchset) == lists[n := lists[n] + [c]];
    PartsAdded(patchset, lists, p, w, c, Chunk(c.srcPos, c.dstPos, []));
  }

  lemma PartsAdded(patchset: seq<Patch>, lists: seq<seq<PatchChunk>>, p: Parser, w: Places, c: PatchChunk, chunk: Chunk)
    requires HeadsPlaced(patchset, p.patches, w) && ListsPlaced(lists, p.patches, w) && p.patches != []
    requires var n := |lists| - 1; ChunkPlaced(c, chunk, w, n, |lists[n]|)
    ensures HeadsPlaced(patchset, AddChunk(p, chunk).patches, w)
    ensures var n := |lists| - 1; ListsPlaced(lists[n := lists[n] + [c]], AddChunk(p, chunk).patches, w)
  {
  }

  ghost function ChunkLists(patchset: seq<Patch>): (lists: seq<seq<PatchChunk>>)
    reads patchset
    ensures |lists| == |patchset| && forall j :: 0 <= j < |lists| ==> lists[j] == patchset[j].chunks
  {
    seq(|patchset|, j requires 0 <= j < |patchset| reads patchset => patchset[j].chunks)
  }

  /** The patches without their chunks are as the values describe them. */
  ghost predicate HeadsPlaced(patchset: seq<Patch>, v: seq<FilePatch>, w: Places)
    reads patchset
  {
    && |patchset| == |v|
    && forall j :: 0 <= j < |patchset| ==>
         && patchset[j] in w.patchAt && w.patchAt[patchset[j]] == j
         && patchset[j].src == v[j].src && patchset[j].dst == v[j].dst
  }

  ghost predicate ListsPlaced(lists: seq<seq<PatchChunk>>, v: seq<FilePatch>, w: Places)
    reads w.chunkAt.Keys, w.lineAt.Keys
  {
    && |lists| == |v|
    && forall j :: 0 <= j < |v| ==> ListPlaced(lists[j], v[j].chunks, w, j)
  }

  ghost predicate ListPlaced(list: seq<PatchChunk>, chunks: seq<Chunk>, w: Places, j: nat)
    reads w.chunkAt.Keys, w.lineAt.Keys
  {
    |list| == |chunks| && forall b :: 0 <= b < |list| ==> ChunkPlaced(list[b], chunks[b], w, j, b)
  }

  lemma PlacedParts(patchset: seq<Patch>, v: seq<FilePatch>, w: Places)
    ensures Placed(patchset, v, w) <==> HeadsPlaced(patchset, v, w) && ListsPlaced(ChunkLists(patchset), v, w)
  {
  }

  lemma EmptyChunkPlaced(c: PatchChunk, w: Places, i: nat, a: nat)
    requires c in w.chunkAt && w.chunkAt[c] == (i, a) && c.lines == []
    ensures ChunkPlaced(c, Chunk(c.srcPos, c.dstPos, []), w, i, a)
  {
  }

  ghost predicate Extends(w': Places, w: Places) {
    && (forall q :: q in w.patchAt.Keys ==> q in w'.patchAt.Keys && w'.patchAt[q] == w.patchAt[q])
    && (forall c :: c in w.chunkAt.Keys ==> c in w'.chunkAt.Keys && w'.chunkAt[c] == w.chunkAt[c])
    && (forall l :: l in w.lineAt.Keys ==> l in w'.lineAt.Keys && w'.lineAt[l] == w.lineAt[l])
  }

  lemma MorePlaces(patchset: seq<Patch>, v: seq<FilePatch>, w: Places, w': Places)
    requires Placed(patchset, v, w) && Extends(w', w)
    ensures Placed(patchset, v, w')
  {
  }

  method AddBody(patchset: seq<Patch>, c: PatchChunk, kind: Kind, text: string, ghost p: Parser, ghost w: Places)
    returns (ghost w': Places)
    requires Tracked(patchset, c, p, w)
    modifies c
    ensures p.at.Some? && Tracked(patchset, c, AddLine(p, Line(kind, text)), w')
    ensures w'.patchAt == w.patchAt && w'.chunkAt == w.chunkAt
    ensures fresh(w'.lineAt.Keys - w.lineAt.Keys)
  {
    var l := new PatchChunkLine();
    l.Set(kind, text);
    hide AddLine, ValidParser, Placed;
    w' := PlaceLine(patchset, c, l, p, w);
  }

  method PlaceLine(patchset: seq<Patch>, c: PatchChunk, l: PatchChunkLine, ghost p: Parser, ghost w: Places)
    returns (ghost w': Places)
    requires ValidParser(p) && p.at.Some? && Placed(patchset, p.patches, w) && l !in w.lineAt
    requires AtChunk(patchset, p, c)
    modifies c
    ensures Placed(patchset, AddLine(p, Line(l.kind, l.text)).patches, w')
    ensures w'.patchAt == w.patchAt && w'.chunkAt == w.chunkAt && w'.lineAt.Keys == w.lineAt.Keys + {l}
  {
    ghost var (i, a) := p.at.value;
    w' := w.(lineAt := w.lineAt[l := (i, a, |c.lines|)]);
    ghost var v := AddLine(p, Line(l.kind, l.text)).patches;
    hide AddLine, ValidParser;
    c.AddLine(l);
    forall j | 0 <= j < |patchset| ensures PatchPlaced(patchset[j], v[j], w', j) {
      hide ChunkPlaced;
      assert old(PatchPlaced(patchset[j], p.patches[j], w, j));
    }
    forall j, b | 0 <= j < |patchset| && 0 <= b < |patchset[j].chunks|
      ensures ChunkPlaced(patchset[j].chunks[b], v[j].chunks[b], w', j, b)
    {
      assert old(ChunkPlaced(patchset[j].chunks[b], p.patches[j].chunks[b], w, j, b));
    }
  }

  lemma ChunkAdded(p: Parser, c: Chunk)
    requires p.patches != []
    ensures ValidParser(AddChunk(p, c))
    ensures AddChunk(p, c).at == Some((|p.patches| - 1, |p.patches[|p.patches| - 1].chunks|))
    ensures
      var v, n := AddChunk(p, c).patches, |p.patches| - 1;
      && |v| == |p.patches|
      && (forall j :: 0 <= j < n ==> v[j] == p.patches[j])
      && v[n].src == p.patches[n].src && v[n].dst == p.patches[n].dst
      && v[n].chunks == p.patches[n].chunks + [c]
  {
  }

  /** One line, by the first pattern that fits; not ok stands for an exception. */
  method ReadLine(patchset: seq<Patch>, currentChunk: PatchChunk?, line: string, ghost p: Parser, ghost w: Places)
    returns (ok: bool, patchset': seq<Patch>, currentChunk': PatchChunk?, ghost w': Places)
    requires Tracked(patchset, currentChunk, p, w) && ValidParser(p)
    modifies w.patchAt.Keys, w.chunkAt.Keys
    ensures ok <==> Step(p, line).Some?
    ensures ok ==> Tracked(patchset', currentChunk', Step(p, line).value, w')
    ensures fresh(w'.patchAt.Keys - w.patchAt.Keys) && fresh(w'.chunkAt.Keys - w.chunkAt.Keys)
    ensures fresh(w'.lineAt.Keys - w.lineAt.Keys)
  {
    hide *;
    StepCases(p, line);
    TrackedObjects(patchset, currentChunk, p, w);
    ok, patchset', currentChunk', w' := true, patchset, currentChunk, w;
    var m := Rest("--- ", line);
    if m.Some? {
      patchset', w' := StartPatch(patchset, m.value, currentChunk, p, w);
      return;
    }
    m := Rest("+++ ", line);
    if m.Some? {
      if patchset == [] {
        ok := false;
        return;
      }
      NameDst(patchset, m.value, currentChunk, p, w);
      return;
    }
    var h := ReadHeader(line);
    if h.Some? {
      if patchset == [] {
        ok := false;
        return;
      }
      currentChunk', w' := StartChunk(patchset, h.value, currentChunk, p, w);
      return;
    }
    m := Rest("-", line);
    var kind := Src;
    if m.None? {
      m := Rest("+", line);
      kind := Dst;
    }
    if m.None? {
      m := Rest(" ", line);
      kind := Both;
    }
    if m.None? || currentChunk == null {
      ok := false;
      return;
    }
    w' := AddBody(patchset, currentChunk, kind, m.value, p, w);
  }

  /** None stands for an exception: a line of no kind, or one that comes before what it belongs to. */
  method ParsePatchset(lines: seq<string>) returns (r: Option<seq<Patch>>, ghost w: Places)
    ensures r.Some? <==> ParseText(lines).Some?
    ensures r.Some? ==> Placed(r.value, ParseText(lines).value, w)
    ensures fresh(w.patchAt.Keys) && fresh(w.chunkAt.Keys) && fresh(w.lineAt.Keys)
  {
    var patchset: seq<Patch> := [];
    var currentChunk: PatchChunk? := null;
    ghost var p := START;
    w := Places(map[], map[], map[]);
    assert lines[..0] == [];
    for i := 0 to |lines|
      invariant ValidParser(p) && Feed(START, lines[..i]) == Some(p)
      invariant Tracked(patchset, currentChunk, p, w)
      invariant fresh(w.patchAt.Keys) && fresh(w.chunkAt.Keys) && fresh(w.lineAt.Keys)
    {
      hide *;
      FedSoFar(lines, i, p);
      var ok;
      ok, patchset, currentChunk, w := ReadLine(patchset, currentChunk, lines[i], p, w);
      if !ok {
        return None, w;
      }
      p := Step(p, lines[i]).value;
    }
    assert lines[..|lines|] == lines;
    hide Feed, ValidParser, AtChunk, Placed;
    r := Some(patchset);
  }

  lemma StepCases(p: Parser, line: string)
    requires ValidParser(p)
    ensures
      Step(p, line) ==
      if Rest("--- ", line).Some? then Some(AddPatch(p, Rest("--- ", line).value))
      else if Rest("+++ ", line).Some? then if p.patches == [] then None else Some(SetDst(p, Rest("+++ ", line).value))
      else if ReadHeader(line).Some? then
        var h := ReadHeader(line).value;
        if p.patches == [] then None else Some(AddChunk(p, Chunk(h.srcPos, h.dstPos, [])))
      else if p.at.None? then None
      else if Rest("-", line).Some? then Some(AddLine(p, Line(Src, Rest("-", line).value)))
      else if Rest("+", line).Some? then Some(AddLine(p, Line(Dst, Rest("+", line).value)))
      else if Rest(" ", line).Some? then Some(AddLine(p, Line(Both, Rest(" ", line).value)))
      else None
  {
    hide Rest, ReadHeader, AddPatch, SetDst, AddChunk, AddLine;
  }

  lemma FedSoFar(lines: seq<string>, i: nat, p: Parser)
    requires i < |lines| && ValidParser(p) && Feed(START, lines[..i]) == Some(p)
    ensures Feed(START, lines[..i + 1]) == Step(p, lines[i])
    ensures Step(p, lines[i]).None? ==> Feed(START, lines).None?
  {
    hide *;
    TakeOneMore(lines, i);
    FedOneMore(lines[..i], lines[i], p);
    NoMoreThanAnException(lines[..i + 1], lines[i + 1..]);
  }

  lemma TakeOneMore<T>(s: seq<T>, i: nat)
    requires i < |s|
    ensures s[..i] + [s[i]] == s[..i + 1] && s[..i + 1] + s[i + 1..] == s
  {
  }

  lemma FedOneMore(before: seq<string>, line: string, p: Parser)
    requires ValidParser(p) && Feed(START, before) == Some(p)
    ensures Feed(START, before + [line]) == Step(p, line)
  {
  }

  lemma NoMoreThanAnException(before: seq<string>, after: seq<string>)
    ensures Feed(START, before).None? ==> Feed(START, before + after).None?
  {
    FeedConcat(START, before, after);
    hide Feed;
  }

  lemma TrackedObjects(patchset: seq<Patch>, currentChunk: PatchChunk?, p: Parser, w: Places)
    requires Tracked(patchset, currentChunk, p, w)
    ensures patchset == [] <==> p.patches == []
    ensures patchset != [] ==> patchset[|patchset| - 1] in w.patchAt.Keys
    ensures currentChunk == null <==> p.at.None?
    ensures currentChunk != null ==> currentChunk in w.chunkAt.Keys
  {
  }

  // --------------------------------------------------- rewriting in place

  /** One line compared with another, which may be the same object, and may get a blank. */
  method FixPair(chunk: PatchChunk, s: PatchChunkLine, d: PatchChunkLine, ghost from: nat, ghost at: nat,
                 ghost c: Chunk, ghost w: Places, ghost i: nat, ghost a: nat)
    requires ChunkPlaced(chunk, c, w, i, a)
    requires from < |chunk.lines| && s == chunk.lines[from] && at < |chunk.lines| && d == chunk.lines[at]
    modifies d
    ensures |chunk.lines| == |c.lines| && ChunkPlaced(chunk, c.(lines := FixAt(c.lines, from, at)), w, i, a)
  {
    if OneBlankMore(s.text, d.text) {
      d.AppendToLine(s.text[|s.text| - 1..]);
    }
  }

  /** The loop over one chunk: raised means that the destination side ran out of lines. */
  method FixChunkLines(chunk: PatchChunk, ghost c: Chunk, ghost w: Places, ghost i: nat, ghost a: nat)
    returns (raised: bool)
    requires ChunkPlaced(chunk, c, w, i, a)
    modifies chunk.lines
    ensures ChunkPlaced(chunk, FixChunk(c), w, i, a) && raised == Raises(c.lines)
  {
    hide *;
    PlacedShows(chunk, c, w, i, a);
    var src := chunk.SideLines(true, c);
    var dst := chunk.SideLines(false, c);
    FixEnds(c);
    for n := 0 to |src|
      invariant n <= |dst| && ChunkPlaced(chunk, c.(lines := FixUpTo(c.lines, n)), w, i, a)
    {
      if n >= |dst| {
        return true;
      }
      FixedOneMore(c.lines, n);
      FixPair(chunk, src[n], dst[n], Side(c.lines, true)[n], Side(c.lines, false)[n],
              c.(lines := FixUpTo(c.lines, n)), w, i, a);
    }
    raised := false;
  }

  lemma PlacedShows(chunk: PatchChunk, c: Chunk, w: Places, i: nat, a: nat)
    requires ChunkPlaced(chunk, c, w, i, a)
    ensures chunk.Shows(c) && |chunk.lines| == |c.lines|
  {
  }

  lemma FixEnds(c: Chunk)
    ensures c.(lines := FixUpTo(c.lines, 0)) == c
    ensures |Side(c.lines, true)| <= |Side(c.lines, false)| ==>
      !Raises(c.lines) && FixChunk(c) == c.(lines := FixUpTo(c.lines, |Side(c.lines, true)|))
    ensures |Side(c.lines, true)| > |Side(c.lines, false)| ==>
      Raises(c.lines) && FixChunk(c) == c.(lines := FixUpTo(c.lines, |Side(c.lines, false)|))
  {
  }

  lemma FixedOneMore(lines: seq<Line>, n: nat)
    requires n < |Side(lines, true)| && n < |Side(lines, false)|
    ensures Side(lines, true)[n] < |lines| && Side(lines, false)[n] < |lines|
    ensures FixUpTo(lines, n + 1) == FixAt(FixUpTo(lines, n), Side(lines, true)[n], Side(lines, false)[n])
  {
  }

  function SetChunk(v: seq<FilePatch>, i: nat, a: nat, c: Chunk): seq<FilePatch>
    requires i < |v| && a < |v[i].chunks|
  {
    v[i := v[i].(chunks := v[i].chunks[a := c])]
  }

  lemma ChunksApart(patchset: seq<Patch>, v: seq<FilePatch>, w: Places, i: nat, a: nat)
    requires Placed(patchset, v, w) && i < |patchset| && a < |patchset[i].chunks|
    ensures a < |v[i].chunks| && ChunkPlaced(patchset[i].chunks[a], v[i].chunks[a], w, i, a)
    ensures forall l :: l in patchset[i].chunks[a].lines ==> l in w.lineAt.Keys
    ensures forall j, b, k | 0 <= j < |patchset| && 0 <= b < |patchset[j].chunks| && (j, b) != (i, a)
      && 0 <= k < |patchset[j].chunks[b].lines| :: patchset[j].chunks[b].lines[k] !in patchset[i].chunks[a].lines
  {
  }

  method FixChunkAt(patchset: seq<Patch>, chunk: PatchChunk, ghost i: nat, ghost a: nat, ghost v: seq<FilePatch>,
                    ghost w: Places)
    returns (raised: bool)
    requires Placed(patchset, v, w) && i < |patchset| && a < |patchset[i].chunks| && chunk == patchset[i].chunks[a]
    modifies chunk.lines
    ensures |v| == |patchset| && a < |v[i].chunks| && raised == Raises(v[i].chunks[a].lines)
    ensures Placed(patchset, SetChunk(v, i, a, FixChunk(v[i].chunks[a])), w)
  {
    ChunksApart(patchset, v, w, i, a);
    hide FixChunk, Raises;
    ghost var after := SetChunk(v, i, a, FixChunk(v[i].chunks[a]));
    raised := FixChunkLines(chunk, v[i].chunks[a], w, i, a);
    forall j | 0 <= j < |patchset| ensures PatchPlaced(patchset[j], after[j], w, j) {
      hide ChunkPlaced;
      assert old(PatchPlaced(patchset[j], v[j], w, j));
    }
    forall j, b | 0 <= j < |patchset| && 0 <= b < |patchset[j].chunks|
      ensures ChunkPlaced(patchset[j].chunks[b], after[j].chunks[b], w, j, b)
    {
      assert old(ChunkPlaced(patchset[j].chunks[b], v[j].chunks[b], w, j, b));
    }
  }

  /** The first a chunks are done, and the others are still to do. */
  ghost predicate ChunksHalfway(all: seq<Chunk>, now: seq<Chunk>, a: nat) {
    && |now| == |all| && a <= |all| && now[a..] == all[a..]
    && FixChunks(all) == (now[..a] + FixChunks(all[a..]).0, FixChunks(all[a..]).1)
  }

  lemma ChunksStart(all: seq<Chunk>)
    ensures ChunksHalfway(all, all, 0)
  {
    assert all[0..] == all && all[..0] == [];
    assert [] + FixChunks(all).0 == FixChunks(all).0;
    hide FixChunks;
  }

  lemma ReplaceStep<T>(all: seq<T>, now: seq<T>, a: nat, x: T, tail: seq<T>)
    requires |now| == |all| && a < |all| && now[a..] == all[a..]
    ensures now[a] == all[a] && all[a..][0] == all[a] && all[a..][1..] == all[a + 1..]
    ensures now[a := x] == now[..a] + ([x] + all[a + 1..]) && now[a := x][a + 1..] == all[a + 1..]
    ensures now[a := x][..a + 1] + tail == now[..a] + ([x] + tail)
  {
  }

  lemma ChunksStep(all: seq<Chunk>, now: seq<Chunk>, a: nat)
    requires ChunksHalfway(all, now, a) && a < |all|
    ensures now[a] == all[a]
    ensures
      var next := now[a := FixChunk(now[a])];
      if Raises(now[a].lines) then FixChunks(all) == (next, true) else ChunksHalfway(all, next, a + 1)
  {
    ReplaceStep(all, now, a, FixChunk(now[a]), FixChunks(all[a + 1..]).0);
    ChunksUnfold(all[a..]);
    hide FixChunk, Raises, FixChunks;
  }

  lemma ChunksEnd(all: seq<Chunk>, now: seq<Chunk>)
    requires ChunksHalfway(all, now, |all|)
    ensures FixChunks(all) == (now, false)
  {
    assert now[..|all|] == now && all[|all|..] == [] && FixChunks([]) == ([], false);
    assert now + [] == now;
    hide FixChunks;
  }

  function WithChunks(v: seq<FilePatch>, i: nat, chunks: seq<Chunk>): seq<FilePatch>
    requires i < |v|
  {
    v[i := v[i].(chunks := chunks)]
  }

  lemma SetTwice(v: seq<FilePatch>, i: nat, chunks: seq<Chunk>, a: nat, c: Chunk)
    requires i < |v| && a < |chunks|
    ensures WithChunks(v, i, v[i].chunks) == v
    ensures |WithChunks(v, i, chunks)| == |v| && WithChunks(v, i, chunks)[i].chunks == chunks
    ensures SetChunk(WithChunks(v, i, chunks), i, a, c) == WithChunks(v, i, chunks[a := c])
  {
  }

  lemma PlacedCounts(patchset: seq<Patch>, v: seq<FilePatch>, w: Places, i: nat)
    requires Placed(patchset, v, w) && i < |patchset|
    ensures |v| == |patchset| && |patchset[i].chunks| == |v[i].chunks| && WithChunks(v, i, v[i].chunks) == v
  {
  }

  method FixPatch(patchset: seq<Patch>, patch: Patch, ghost i: nat, ghost v: seq<FilePatch>, ghost w: Places)
    returns (raised: bool)
    requires Placed(patchset, v, w) && i < |patchset| && patch == patchset[i]
    modifies w.lineAt.Keys
    ensures |v| == |patchset| && raised == FixChunks(v[i].chunks).1
    ensures Placed(patchset, WithChunks(v, i, FixChunks(v[i].chunks).0), w)
  {
    hide *;
    PlacedCounts(patchset, v, w, i);
    ghost var all, now := v[i].chunks, v[i].chunks;
    ChunksStart(all);
    for a := 0 to |patch.chunks|
      invariant |now| == |all| && ChunksHalfway(all, now, a)
      invariant Placed(patchset, WithChunks(v, i, now), w)
    {
      ghost var vNow := WithChunks(v, i, now);
      ChunksApart(patchset, vNow, w, i, a);
      ChunksStep(all, now, a);
      SetTwice(v, i, now, a, FixChunk(now[a]));
      raised := FixChunkAt(patchset, patch.chunks[a], i, a, vNow, w);
      now := now[a := FixChunk(now[a])];
      if raised {
        return true;
      }
    }
    ChunksEnd(all, now);
    raised := false;
  }

  /** The first patches are done, and the others are still to do. */
  ghost predicate PatchesHalfway(all: seq<FilePatch>, now: seq<FilePatch>, i: nat) {
    && |now| == |all| && i <= |all| && now[i..] == all[i..]
    && FixPatches(all) == (now[..i] + FixPatches(all[i..]).0, FixPatches(all[i..]).1)
  }

  lemma PatchesStart(all: seq<FilePatch>)
    ensures PatchesHalfway(all, all, 0)
  {
    assert all[0..] == all && all[..0] == [];
    assert [] + FixPatches(all).0 == FixPatches(all).0;
    hide FixPatches;
  }

  lemma PatchesStep(all: seq<FilePatch>, now: seq<FilePatch>, i: nat)
    requires PatchesHalfway(all, now, i) && i < |all|
    ensures
      var next := WithChunks(now, i, FixChunks(now[i].chunks).0);
      if FixChunks(now[i].chunks).1 then FixPatches(all) == (next, true) else PatchesHalfway(all, next, i + 1)
  {
    ReplaceStep(all, now, i, now[i].(chunks := FixChunks(now[i].chunks).0), FixPatches(all[i + 1..]).0);
    PatchesUnfold(all[i..]);
    hide FixChunks, FixPatches;
  }

  lemma PatchesEnd(all: seq<FilePatch>, now: seq<FilePatch>)
    requires PatchesHalfway(all, now, |all|)
    ensures FixPatches(all) == (now, false)
  {
    assert now[..|all|] == now && all[|all|..] == [] && FixPatches([]) == ([], false);
    assert now + [] == now;
    hide FixPatches;
  }

  lemma PatchCount(patchset: seq<Patch>, v: seq<FilePatch>, w: Places)
    requires Placed(patchset, v, w)
    ensures |v| == |patchset|
  {
  }

  /** Reads the patches and puts dropped trailing blanks back, in the lines that both sides share; the
      first chunk that raises ends it early, without an exception for the caller. */
  method RemoveTrailingWhitespaceChanges(lines: seq<string>) returns (r: Option<seq<Patch>>, ghost w: Places)
    ensures r.Some? <==> ParseText(lines).Some?
    ensures r.Some? ==> Placed(r.value, FixPatches(ParseText(lines).value).0, w)
    ensures fresh(w.patchAt.Keys) && fresh(w.chunkAt.Keys) && fresh(w.lineAt.Keys)
  {
    hide *;
    r, w := ParsePatchset(lines);
    if r.None? {
      return;
    }
    var patchset := r.value;
    ghost var all := ParseText(lines).value;
    ghost var now := all;
    PatchCount(patchset, all, w);
    PatchesStart(all);
    for i := 0 to |patchset|
      invariant |now| == |all| && PatchesHalfway(all, now, i) && Placed(patchset, now, w)
    {
      PatchesStep(all, now, i);
      ghost var next := WithChunks(now, i, FixChunks(now[i].chunks).0);
      var raised := FixPatch(patchset, patchset[i], i, now, w);
      PatchCount(patchset, next, w);
      now := next;
      if raised {
        return;
      }
    }
    PatchesEnd(all, now);
  }
}
