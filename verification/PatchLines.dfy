/** Which texts utils/check-style.py can read, line by line, and what is read from them. */
module PatchLines {
  import opened Common
  import opened PatchText
  import opened PatchRoundTrip

  // ---------------------------------------------------------------- one line

  /** The line is this beginning and the text, and perhaps a newline. */
  ghost predicate Begins(line: string, start: string, text: string) {
    NoNewline(text) && (line == start + text || line == start + text + "\n")
  }

  lemma RestIs(start: string, line: string, text: string)
    ensures Rest(start, line) == Some(text) <==> Begins(line, start, text)
  {
    if Rest(start, line).Some? { RestMeans(start, line); }
    if Begins(line, start, text) { RestBack(start, text); }
    hide Rest;
  }

  lemma BeginsMore(line: string, mark: string, title: string, text: string)
    requires Begins(line, mark, text) && NoNewline(title)
    ensures Rest(mark + title, line).Some? <==> title <= text
  {
    RestIs(mark, line, text);
    if title <= text { NotATitle(mark, title, line); }
    if Rest(mark + title, line).Some? {
      var more := Rest(mark + title, line).value;
      RestIs(mark + title, line, more);
      Regroup(mark, title, more);
      RestIs(mark, line, title + more);
      hide Rest;
      assert line == mark + (title + more) || line == mark + (title + more) + "\n";
    }
  }

  /** Which pattern a line fits, in terms of its characters alone. */
  ghost predicate Fits(line: string, token: Token) {
    match token
    case SrcFile(name) => Begins(line, "--- ", name)
    case DstFile(name) => Begins(line, "+++ ", name)
    case ChunkStart(h) => exists a, b, u, v, rest :: IsHeader(line, h, a, b, u, v, rest)
    case Body(Line(Src, text)) => Begins(line, "-", text) && !("-- " <= text)
    case Body(Line(Dst, text)) => Begins(line, "+", text) && !("++ " <= text)
    case Body(Line(Both, text)) => Begins(line, " ", text)
    case Body(Line(Unset, text)) => false
    case Unknown => false
  }

  lemma RestStarts(start: string, line: string)
    requires Rest(start, line).Some? && start != ""
    ensures line != "" && line[0] == start[0]
  {
  }

  lemma HeaderStarts(line: string)
    requires ReadHeader(line).Some?
    ensures line != "" && line[0] == '@'
  {
    hide TakePair;
  }

  /** The first character decides between the patterns, but for the titles. */
  lemma OnePattern(line: string)
    ensures ReadHeader(line).Some? ==> Rest("-", line).None? && Rest("+", line).None? && Rest(" ", line).None?
    ensures ReadHeader(line).Some? ==> Rest("--- ", line).None? && Rest("+++ ", line).None?
    ensures Rest("-", line).Some? ==> Rest("+", line).None? && Rest(" ", line).None? && Rest("+++ ", line).None?
    ensures Rest("+", line).Some? ==> Rest(" ", line).None? && Rest("--- ", line).None?
    ensures Rest("--- ", line).Some? ==> Rest("+++ ", line).None? && Rest(" ", line).None?
    ensures Rest("+++ ", line).Some? ==> Rest(" ", line).None?
  {
    hide Rest, ReadHeader;
    if ReadHeader(line).Some? { HeaderStarts(line); }
    if Rest("-", line).Some? { RestStarts("-", line); }
    if Rest("+", line).Some? { RestStarts("+", line); }
    if Rest(" ", line).Some? { RestStarts(" ", line); }
    if Rest("--- ", line).Some? { RestStarts("--- ", line); }
    if Rest("+++ ", line).Some? { RestStarts("+++ ", line); }
  }

  lemma TitlesMean(line: string, name: string)
    ensures TokenOf(line) == SrcFile(name) <==> Begins(line, "--- ", name)
    ensures TokenOf(line) == DstFile(name) <==> Begins(line, "+++ ", name)
  {
    RestIs("--- ", line, name);
    RestIs("+++ ", line, name);
    OnePattern(line);
    hide Rest, ReadHeader, Begins;
  }

  lemma HeaderMeans(line: string, h: Header)
    ensures TokenOf(line) == ChunkStart(h) <==> exists a, b, u, v, rest :: IsHeader(line, h, a, b, u, v, rest)
  {
    HeaderExactly(line, h);
    OnePattern(line);
    hide Rest, ReadHeader, IsHeader;
  }

  lemma MarkMeans(line: string, mark: string, title: string, text: string)
    requires NoNewline(title)
    ensures Rest(mark, line) == Some(text) && Rest(mark + title, line).None?
       <==> Begins(line, mark, text) && !(title <= text)
  {
    RestIs(mark, line, text);
    if Begins(line, mark, text) { BeginsMore(line, mark, title, text); }
    hide Rest, Begins;
  }

  lemma BodyMeans(line: string, text: string)
    ensures TokenOf(line) == Body(Line(Src, text)) <==> Begins(line, "-", text) && !("-- " <= text)
    ensures TokenOf(line) == Body(Line(Dst, text)) <==> Begins(line, "+", text) && !("++ " <= text)
    ensures TokenOf(line) == Body(Line(Both, text)) <==> Begins(line, " ", text)
  {
    assert "-" + "-- " == "--- " && "+" + "++ " == "+++ ";
    MarkMeans(line, "-", "-- ", text);
    MarkMeans(line, "+", "++ ", text);
    RestIs(" ", line, text);
    OnePattern(line);
    hide Rest, ReadHeader, Begins;
  }

  /** Every line is read by the one pattern it fits, and raises when it fits none. */
  lemma TokenMeans(line: string, token: Token)
    requires token != Unknown
    ensures TokenOf(line) == token <==> Fits(line, token)
  {
    hide TokenOf, Begins, IsHeader;
    match token
    case SrcFile(name) => TitlesMean(line, name);
    case DstFile(name) => TitlesMean(line, name);
    case ChunkStart(h) => HeaderMeans(line, h);
    case Body(l) =>
      BodyMeans(line, l.text);
      NeverUnset(line);
  }

  lemma NeverUnset(line: string)
    ensures TokenOf(line).Body? ==> TokenOf(line).line.kind != Unset
  {
    hide Rest, ReadHeader;
  }

  // --------------------------------------------------------------- all lines

  ghost predicate Headed(lines: seq<string>, i: nat)
    requires i <= |lines|
  {
    exists j :: 0 <= j < i && TokenOf(lines[j]).ChunkStart?
  }

  /** Every line fits a pattern, the first names a source file, and a chunk begins before any line that
      belongs to one. */
  ghost predicate Acceptable(lines: seq<string>) {
    && AllKnown(lines)
    && (lines != [] ==> TokenOf(lines[0]).SrcFile?)
    && BodiesHeaded(lines)
  }

  ghost predicate AllKnown(lines: seq<string>) {
    forall i :: 0 <= i < |lines| ==> !TokenOf(lines[i]).Unknown?
  }

  ghost predicate BodiesHeaded(lines: seq<string>) {
    forall i :: 0 <= i < |lines| && TokenOf(lines[i]).Body? ==> Headed(lines, i)
  }

  lemma BodiesMore(lines: seq<string>)
    requires lines != []
    ensures
      var n := |lines| - 1;
      BodiesHeaded(lines) <==> BodiesHeaded(lines[..n]) && (TokenOf(lines[n]).Body? ==> Headed(lines[..n], n))
  {
    var n := |lines| - 1;
    var front := lines[..n];
    hide TokenOf;
    forall i | 0 <= i <= n ensures Headed(lines, i) <==> Headed(front, i) {
      assert forall j :: 0 <= j < i ==> lines[j] == front[j];
    }
    assert forall i :: 0 <= i < n ==> lines[i] == front[i];
    hide Headed;
  }

  lemma AcceptableMore(lines: seq<string>)
    requires lines != []
    ensures
      var n := |lines| - 1;
      Acceptable(lines) <==> Acceptable(lines[..n]) && match TokenOf(lines[n])
        case SrcFile(_) => true
        case DstFile(_) => n > 0
        case ChunkStart(_) => n > 0
        case Body(_) => n > 0 && Headed(lines[..n], n)
        case Unknown => false
  {
    hide TokenOf, Headed, BodiesHeaded, AllKnown;
    BodiesMore(lines);
    KnownMore(lines);
  }

  lemma KnownMore(lines: seq<string>)
    requires lines != []
    ensures AllKnown(lines) <==> AllKnown(lines[..|lines| - 1]) && !TokenOf(lines[|lines| - 1]).Unknown?
  {
    assert forall i :: 0 <= i < |lines| - 1 ==> lines[i] == lines[..|lines| - 1][i];
    hide TokenOf;
  }

  lemma HeadedMore(lines: seq<string>)
    requires lines != []
    ensures
      var n := |lines| - 1;
      Headed(lines, |lines|) <==> Headed(lines[..n], n) || TokenOf(lines[n]).ChunkStart?
  {
    var n := |lines| - 1;
    hide TokenOf;
    if j :| 0 <= j < |lines| && TokenOf(lines[j]).ChunkStart? {
      assert j < n ==> TokenOf(lines[..n][j]).ChunkStart?;
    }
    if j :| 0 <= j < n && TokenOf(lines[..n][j]).ChunkStart? {
      assert TokenOf(lines[j]).ChunkStart?;
    }
  }

  lemma {:induction false} FeedAccepts(lines: seq<string>)
    ensures Feed(START, lines).Some? <==> Acceptable(lines)
    ensures Feed(START, lines).Some? ==>
      && (Feed(START, lines).value.patches == [] <==> lines == [])
      && (Feed(START, lines).value.at.Some? <==> Headed(lines, |lines|))
  {
    if lines != [] {
      FeedAccepts(lines[..|lines| - 1]);
      AcceptableMore(lines);
      HeadedMore(lines);
      hide TokenOf, Acceptable, Headed;
    }
  }

  /** Reading raises no exception exactly when the lines are of that form. */
  lemma AcceptedExactlyWhen(lines: seq<string>)
    ensures ParseText(lines).Some? <==> Acceptable(lines)
  {
    FeedAccepts(lines);
  }

  /** The chunks of all patches, one after the other. */
  ghost function AllChunks(ps: seq<FilePatch>): seq<Chunk> {
    if ps == [] then [] else AllChunks(ps[..|ps| - 1]) + ps[|ps| - 1].chunks
  }

  /** Each header with the lines that belong to it: all that come before the next header, whatever file
      names stand between. */
  ghost function ChunksIn(lines: seq<string>): seq<Chunk> {
    if lines == [] then [] else ChunksOn(ChunksIn(lines[..|lines| - 1]), TokenOf(lines[|lines| - 1]))
  }

  ghost function ChunksOn(before: seq<Chunk>, token: Token): seq<Chunk> {
    var n := |before|;
    match token
    case ChunkStart(h) => before + [Chunk(h.srcPos, h.dstPos, [])]
    case Body(l) => if n == 0 then [] else before[n - 1 := before[n - 1].(lines := before[n - 1].lines + [l])]
    case _ => before
  }

  /** The names of a patch and how many chunks it has. */
  datatype Outline = Outline(src: string, dst: string, chunks: nat)

  ghost function OutlinesOf(ps: seq<FilePatch>): (r: seq<Outline>)
    ensures |r| == |ps|
  {
    seq(|ps|, i requires 0 <= i < |ps| => Outline(ps[i].src, ps[i].dst, |ps[i].chunks|))
  }

  /** Each source file name with the last destination name and the number of headers before the next. */
  ghost function OutlinesIn(lines: seq<string>): seq<Outline> {
    if lines == [] then [] else OutlinesOn(OutlinesIn(lines[..|lines| - 1]), TokenOf(lines[|lines| - 1]))
  }

  ghost function OutlinesOn(before: seq<Outline>, token: Token): seq<Outline> {
    var n := |before|;
    match token
    case SrcFile(name) => before + [Outline(name, "", 0)]
    case DstFile(name) => if n == 0 then [] else before[n - 1 := before[n - 1].(dst := name)]
    case ChunkStart(_) => if n == 0 then [] else before[n - 1 := before[n - 1].(chunks := before[n - 1].chunks + 1)]
    case _ => before
  }

  /** Lines are added to the last of all chunks. */
  ghost predicate AtLast(p: Parser) {
    match p.at
    case None => forall i :: 0 <= i < |p.patches| ==> p.patches[i].chunks == []
    case Some((i, j)) =>
      && i < |p.patches| && j + 1 == |p.patches[i].chunks|
      && forall k :: i < k < |p.patches| ==> p.patches[k].chunks == []
  }

  lemma {:induction false} LastReplaced(ps: seq<FilePatch>, i: nat, j: nat, c: Chunk)
    requires i < |ps| && j + 1 == |ps[i].chunks| && forall k :: i < k < |ps| ==> ps[k].chunks == []
    ensures
      var all := AllChunks(ps);
      && all != [] && all[|all| - 1] == ps[i].chunks[j]
      && AllChunks(ps[i := ps[i].(chunks := ps[i].chunks[j := c])]) == all[|all| - 1 := c]
  {
    var n := |ps| - 1;
    var qs := ps[i := ps[i].(chunks := ps[i].chunks[j := c])];
    if i < n {
      LastReplaced(ps[..n], i, j, c);
      assert qs[..n] == ps[..n][i := ps[i].(chunks := ps[i].chunks[j := c])];
    } else {
      assert qs[..n] == ps[..n];
    }
  }

  lemma {:induction false} NoChunks(ps: seq<FilePatch>)
    requires forall i :: 0 <= i < |ps| ==> ps[i].chunks == []
    ensures AllChunks(ps) == []
  {
    if ps != [] { NoChunks(ps[..|ps| - 1]); }
  }

  lemma LineReads(p: Parser, l: Line)
    requires ValidParser(p) && AtLast(p) && p.at.Some?
    ensures
      var all, n := AllChunks(p.patches), |AllChunks(p.patches)|;
      && AtLast(AddLine(p, l)) && n > 0
      && AllChunks(AddLine(p, l).patches) == all[n - 1 := all[n - 1].(lines := all[n - 1].lines + [l])]
  {
    var (i, j) := p.at.value;
    var c := p.patches[i].chunks[j];
    LastReplaced(p.patches, i, j, c.(lines := c.lines + [l]));
    hide AllChunks;
  }

  lemma PatchReads(p: Parser, name: string)
    requires AtLast(p)
    ensures AtLast(AddPatch(p, name)) && AllChunks(AddPatch(p, name).patches) == AllChunks(p.patches)
  {
    assert AddPatch(p, name).patches[..|p.patches|] == p.patches;
  }

  lemma NameReads(p: Parser, name: string)
    requires AtLast(p) && p.patches != []
    ensures AtLast(SetDst(p, name)) && AllChunks(SetDst(p, name).patches) == AllChunks(p.patches)
  {
    assert SetDst(p, name).patches[..|p.patches| - 1] == p.patches[..|p.patches| - 1];
  }

  lemma HeaderReads(p: Parser, c: Chunk)
    requires AtLast(p) && p.patches != []
    ensures AtLast(AddChunk(p, c)) && AllChunks(AddChunk(p, c).patches) == AllChunks(p.patches) + [c]
  {
    assert AddChunk(p, c).patches[..|p.patches| - 1] == p.patches[..|p.patches| - 1];
  }

  lemma StepReads(p: Parser, line: string, q: Parser)
    requires ValidParser(p) && AtLast(p) && Step(p, line) == Some(q)
    ensures AtLast(q) && AllChunks(q.patches) == ChunksOn(AllChunks(p.patches), TokenOf(line))
  {
    hide TokenOf, AtLast, AllChunks, AddPatch, SetDst, AddChunk, AddLine;
    match TokenOf(line)
    case SrcFile(name) => PatchReads(p, name);
    case DstFile(name) => NameReads(p, name);
    case ChunkStart(h) => HeaderReads(p, Chunk(h.srcPos, h.dstPos, []));
    case Body(l) => LineReads(p, l);
  }

  lemma StepOutlines(p: Parser, line: string, q: Parser)
    requires ValidParser(p) && Step(p, line) == Some(q)
    ensures OutlinesOf(q.patches) == OutlinesOn(OutlinesOf(p.patches), TokenOf(line))
  {
    hide TokenOf;
  }

  lemma FeedSteps(lines: seq<string>) returns (p: Parser, q: Parser)
    requires lines != [] && Feed(START, lines).Some?
    ensures
      var n := |lines| - 1;
      && Feed(START, lines[..n]) == Some(p) && Feed(START, lines) == Some(q) && ValidParser(p)
      && Step(p, lines[n]) == Some(q)
  {
    p, q := Feed(START, lines[..|lines| - 1]).value, Feed(START, lines).value;
    hide Step;
  }

  lemma {:induction false} FeedReads(lines: seq<string>)
    requires Feed(START, lines).Some?
    ensures AtLast(Feed(START, lines).value) && AllChunks(Feed(START, lines).value.patches) == ChunksIn(lines)
  {
    if lines != [] {
      hide TokenOf, Step, AtLast, AllChunks, Feed, ChunksOn;
      var p, q := FeedSteps(lines);
      FeedReads(lines[..|lines| - 1]);
      StepReads(p, lines[|lines| - 1], q);
    }
  }

  lemma {:induction false} FeedOutlines(lines: seq<string>)
    requires Feed(START, lines).Some?
    ensures OutlinesOf(Feed(START, lines).value.patches) == OutlinesIn(lines)
  {
    if lines != [] {
      hide TokenOf, Step, OutlinesOf, Feed, OutlinesOn;
      var p, q := FeedSteps(lines);
      FeedOutlines(lines[..|lines| - 1]);
      StepOutlines(p, lines[|lines| - 1], q);
    }
  }

  /** What is read: the file names in order, each with the number of its chunks, and all the chunks in
      order, each with the lines up to the next header. */
  lemma ReadExactly(lines: seq<string>)
    requires ParseText(lines).Some?
    ensures OutlinesOf(ParseText(lines).value) == OutlinesIn(lines)
    ensures AllChunks(ParseText(lines).value) == ChunksIn(lines)
  {
    FeedReads(lines);
    FeedOutlines(lines);
  }
}
