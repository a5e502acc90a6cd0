/** Which patch sets of utils/check-style.py survive being written and read back. */
module PatchRoundTrip {
  import opened Common
  import opened PatchText

  /** A removed line must not look like the name of a source file once it is written, nor an added
      one like that of a destination file. */
  predicate CleanLine(l: Line) {
    && l.kind != Unset && NoNewline(l.text)
    && !(l.kind == Src && "-- " <= l.text)
    && !(l.kind == Dst && "++ " <= l.text)
  }

  predicate CleanLines(lines: seq<Line>) {
    forall i :: 0 <= i < |lines| ==> CleanLine(lines[i])
  }

  predicate CleanChunk(c: Chunk) {
    c.srcPos >= 0 && c.dstPos >= 0 && CleanLines(c.lines)
  }

  predicate CleanChunks(chunks: seq<Chunk>) {
    forall i :: 0 <= i < |chunks| ==> CleanChunk(chunks[i])
  }

  predicate CleanPatch(p: FilePatch) {
    NoNewline(p.src) && NoNewline(p.dst) && CleanChunks(p.chunks)
  }

  predicate Clean(ps: seq<FilePatch>) {
    forall i :: 0 <= i < |ps| ==> CleanPatch(ps[i])
  }

  // ------------------------------------------ everything that is read is clean
  lemma RestMeans(prefix: string, line: string)
    requires Rest(prefix, line).Some?
    ensures
      var text := Rest(prefix, line).value;
      NoNewline(text) && (line == prefix + text || line == prefix + text + "\n")
  {
  }

  lemma RestBack(prefix: string, name: string)
    requires NoNewline(name)
    ensures Rest(prefix, prefix + name + "\n") == Some(name) && Rest(prefix, prefix + name) == Some(name)
  {
    Regroup(prefix, name, "\n");
    AfterPrefix(prefix, name);
    AfterPrefix(prefix, name + "\n");
    assert (name + "\n")[..|name|] == name;
  }

  lemma AfterPrefix(prefix: string, rest: string)
    ensures prefix <= prefix + rest && (prefix + rest)[|prefix|..] == rest
  {
  }

  lemma NotATitle(mark: string, title: string, line: string)
    requires Rest(mark, line).Some? && title <= Rest(mark, line).value
    ensures Rest(mark + title, line).Some?
  {
    var text := Rest(mark, line).value;
    var more := text[|title|..];
    RestMeans(mark, line);
    assert text == title + more && NoNewline(more);
    hide *;
    Regroup(mark, title, more);
    RestBack(mark + title, more);
  }

  lemma TokenIsClean(line: string)
    ensures match TokenOf(line) {
        case SrcFile(name) => NoNewline(name)
        case DstFile(name) => NoNewline(name)
        case ChunkStart(h) => true
        case Body(l) => CleanLine(l)
        case Unknown => true
      }
  {
    hide ReadHeader;
    assert "-" + "-- " == "--- " && "+" + "++ " == "+++ ";
    if Rest("-", line).Some? && "-- " <= Rest("-", line).value { NotATitle("-", "-- ", line); }
    if Rest("+", line).Some? && "++ " <= Rest("+", line).value { NotATitle("+", "++ ", line); }
    hide Rest;
  }

  lemma StepIsClean(p: Parser, line: string)
    requires ValidParser(p) && Clean(p.patches)
    ensures Step(p, line).Some? ==> Clean(Step(p, line).value.patches)
  {
    TokenIsClean(line);
    hide TokenOf, NoNewline;
    if Step(p, line).Some? {
      match TokenOf(line)
      case SrcFile(name) => NoText();
      case DstFile(name) =>
      case ChunkStart(h) =>
      case Body(l) =>
        var (i, j) := p.at.value;
        assert CleanPatch(p.patches[i]) && CleanChunk(p.patches[i].chunks[j]);
    }
  }

  lemma NoText()
    ensures NoNewline("")
  {
  }

  lemma {:induction false} FeedIsClean(lines: seq<string>)
    ensures Feed(START, lines).Some? ==> Clean(Feed(START, lines).value.patches)
  {
    if lines != [] {
      var n := |lines| - 1;
      FeedIsClean(lines[..n]);
      if Feed(START, lines[..n]).Some? { StepIsClean(Feed(START, lines[..n]).value, lines[n]); }
    }
  }

  /** Whatever the text, what is read from it is clean. */
  lemma ParsedIsClean(lines: seq<string>)
    ensures ParseText(lines).Some? ==> Clean(ParseText(lines).value)
  {
    FeedIsClean(lines);
  }

  // ----------------------------------------------------- a header read back

  lemma {:induction false} DigitsBefore(d: string, t: string)
    requires AllDigits(d) && t != "" && !IsDigit(t[0])
    ensures DigitsAt(d + t) == |d|
  {
    if d == "" {
      assert d + t == t;
    } else {
      assert (d + t)[1..] == d[1..] + t;
      DigitsBefore(d[1..], t);
    }
  }

  /** Nothing but digits, and some. */
  ghost predicate Digits(s: string) {
    s != "" && forall i :: 0 <= i < |s| ==> '0' <= s[i] <= '9'
  }

  lemma DigitsTaken(d: string, t: string)
    requires Digits(d) && t != "" && !IsDigit(t[0])
    ensures AllDigits(d) && TakeNumber(d + t) == Some((NumberOf(d), t))
  {
    DigitsBefore(d, t);
    assert (d + t)[..|d|] == d && (d + t)[|d|..] == t;
    hide DigitsAt, NumberOf;
  }

  lemma PairTaken(d: string, e: string, t: string)
    requires Digits(d) && Digits(e) && t != "" && !IsDigit(t[0])
    ensures AllDigits(d) && AllDigits(e)
    ensures TakePair(d + ("," + (e + t))) == Some((NumberOf(d), NumberOf(e), t))
  {
    DigitsTaken(d, "," + (e + t));
    DigitsTaken(e, t);
    hide TakeNumber, NumberOf;
  }

  /** A chunk's first line with these four numbers. */
  ghost function HeaderLine(a: string, b: string, u: string, v: string, rest: string): string {
    "@@ -" + a + "," + b + " +" + u + "," + v + " @@" + rest
  }

  lemma FromTheRight(a: string, b: string, u: string, v: string, rest: string)
    ensures HeaderLine(a, b, u, v, rest)
         == "@@ -" + (a + ("," + (b + (" +" + (u + ("," + (v + (" @@" + rest))))))))
  {
  }

  lemma HeaderSteps(line: string, s: string, first: (nat, nat, string), t: string, second: (nat, nat, string))
    requires TakeText("@@ -", line) == Some(s) && TakePair(s) == Some(first)
    requires TakeText(" +", first.2) == Some(t) && TakePair(t) == Some(second) && " @@" <= second.2
    ensures ReadHeader(line) == Some(Header(first.0, first.1, second.0, second.1))
  {
    hide TakeText, TakePair;
  }

  lemma HeaderTaken(a: string, b: string, u: string, v: string, rest: string)
    requires Digits(a) && Digits(b) && Digits(u) && Digits(v)
    ensures AllDigits(a) && AllDigits(b) && AllDigits(u) && AllDigits(v)
    ensures ReadHeader(HeaderLine(a, b, u, v, rest))
         == Some(Header(NumberOf(a), NumberOf(b), NumberOf(u), NumberOf(v)))
  {
    var end := " @@" + rest;
    assert " @@" <= end && !IsDigit(end[0]);
    var second := u + ("," + (v + end));
    assert (" +" + second)[0] == ' ' && !IsDigit(' ');
    var first := a + ("," + (b + (" +" + second)));
    hide *;
    FromTheRight(a, b, u, v, rest);
    PairTaken(a, b, " +" + second);
    PairTaken(u, v, end);
    TextTaken("@@ -", first);
    TextTaken(" +", second);
    HeaderSteps("@@ -" + first, first, (NumberOf(a), NumberOf(b), " +" + second), second,
                (NumberOf(u), NumberOf(v), end));
  }

  lemma TextTaken(t: string, s: string)
    ensures TakeText(t, t + s) == Some(s)
  {
  }

  lemma NumbersBack(a: nat, b: nat, u: nat, v: nat)
    ensures ReadHeader(HeaderLine(Decimal(a), Decimal(b), Decimal(u), Decimal(v), "\n")) == Some(Header(a, b, u, v))
  {
    NaturalBack(a);
    NaturalBack(b);
    NaturalBack(u);
    NaturalBack(v);
    hide Natural, NumberOf, ReadHeader;
    HeaderTaken(Natural(a), Natural(b), Natural(u), Natural(v), "\n");
  }

  /** The lines that are a chunk's first line: four numbers in their places; what follows is not looked at. */
  lemma HeaderExactly(line: string, h: Header)
    ensures ReadHeader(line) == Some(h)
       <==> exists a, b, u, v, rest :: IsHeader(line, h, a, b, u, v, rest)
  {
    if ReadHeader(line) == Some(h) {
      var a, b, u, v, rest := HeaderParts(line);
      assert IsHeader(line, h, a, b, u, v, rest);
    }
    forall a, b, u, v, rest | IsHeader(line, h, a, b, u, v, rest) ensures ReadHeader(line) == Some(h) {
      HeaderTaken(a, b, u, v, rest);
    }
    hide ReadHeader, NumberOf, HeaderLine;
  }

  ghost predicate IsHeader(line: string, h: Header, a: string, b: string, u: string, v: string, rest: string) {
    && line == HeaderLine(a, b, u, v, rest)
    && Digits(a) && Digits(b) && Digits(u) && Digits(v)
    && AllDigits(a) && AllDigits(b) && AllDigits(u) && AllDigits(v)
    && h == Header(NumberOf(a), NumberOf(b), NumberOf(u), NumberOf(v))
  }

  lemma NumberParts(s: string) returns (d: string)
    requires TakeNumber(s).Some?
    ensures Digits(d) && AllDigits(d) && NumberOf(d) == TakeNumber(s).value.0 && s == d + TakeNumber(s).value.1
  {
    d := s[..DigitsAt(s)];
    hide NumberOf;
  }

  lemma TextParts(t: string, s: string)
    requires TakeText(t, s).Some?
    ensures s == t + TakeText(t, s).value
  {
  }

  lemma PairParts(s: string) returns (d: string, e: string)
    requires TakePair(s).Some?
    ensures Digits(d) && AllDigits(d) && NumberOf(d) == TakePair(s).value.0
    ensures Digits(e) && AllDigits(e) && NumberOf(e) == TakePair(s).value.1
    ensures s == d + ("," + (e + TakePair(s).value.2))
  {
    hide TakeNumber, TakeText, NumberOf, Digits;
    var s1 := TakeNumber(s).value.1;
    d := NumberParts(s);
    TextParts(",", s1);
    e := NumberParts(TakeText(",", s1).value);
  }

  lemma HeaderParts(line: string) returns (a: string, b: string, u: string, v: string, rest: string)
    requires ReadHeader(line).Some?
    ensures IsHeader(line, ReadHeader(line).value, a, b, u, v, rest)
  {
    hide TakePair, TakeText, NumberOf, Digits, HeaderLine;
    var s := TakeText("@@ -", line).value;
    TextParts("@@ -", line);
    a, b := PairParts(s);
    var t := TakePair(s).value.2;
    TextParts(" +", t);
    u, v := PairParts(TakeText(" +", t).value);
    var end := TakePair(TakeText(" +", t).value).value.2;
    rest := end[3..];
    assert end == " @@" + rest;
    FromTheRight(a, b, u, v, rest);
  }

  /** The header states the positions, and how many lines there are on each side. */
  lemma HeaderBack(c: Chunk)
    requires c.srcPos >= 0 && c.dstPos >= 0
    ensures ReadHeader(HeaderText(c)) == Some(Header(c.srcPos, SrcCount(c.lines), c.dstPos, DstCount(c.lines)))
  {
    hide Decimal, ReadHeader;
    NumbersBack(c.srcPos, SrcCount(c.lines), c.dstPos, DstCount(c.lines));
    var (a, b, u, v) := (Decimal(c.srcPos), Decimal(SrcCount(c.lines)), Decimal(c.dstPos), Decimal(DstCount(c.lines)));
    Regroup("@@ -" + a + "," + b + " +" + u + "," + v, " @@", "\n");
    assert " @@" + "\n" == " @@\n";
  }

  // ------------------------------------------------------- pieces read back

  lemma NoRest(prefix: string, line: string)
    requires !(prefix <= line)
    ensures Rest(prefix, line) == None
  {
  }

  lemma TitleToken(name: string)
    requires NoNewline(name)
    ensures TokenOf("--- " + name + "\n") == SrcFile(name)
    ensures TokenOf("+++ " + name + "\n") == DstFile(name)
  {
    RestBack("--- ", name);
    RestBack("+++ ", name);
    assert ("+++ " + name + "\n")[0] == '+';
    NoRest("--- ", "+++ " + name + "\n");
  }

  lemma HeaderToken(c: Chunk)
    requires c.srcPos >= 0 && c.dstPos >= 0
    ensures TokenOf(HeaderText(c)).ChunkStart?
    ensures TokenOf(HeaderText(c)).header.srcPos == c.srcPos && TokenOf(HeaderText(c)).header.dstPos == c.dstPos
  {
    HeaderBack(c);
    assert HeaderText(c)[0] == '@';
    NoRest("--- ", HeaderText(c));
    NoRest("+++ ", HeaderText(c));
    hide HeaderText, ReadHeader;
  }

  lemma StillNoTitle(mark: string, title: string, text: string)
    requires title != "" && title[|title| - 1] != '\n' && !(title <= text)
    ensures !(mark + title <= mark + text + "\n")
  {
    var line := mark + text + "\n";
    if mark + title <= line {
      var last := |mark| + |title| - 1;
      assert (mark + title)[last] == title[|title| - 1] && line[last] == (mark + title)[last];
      assert line[|line| - 1] == '\n';
      forall i | 0 <= i < |title| ensures title[i] == text[i] {
        assert (mark + title)[|mark| + i] == line[|mark| + i];
      }
    }
  }

  lemma LineToken(l: Line)
    requires CleanLine(l)
    ensures TokenOf(LineText(l)) == Body(l)
  {
    var line := LineText(l);
    RestBack(Mark(l.kind), l.text);
    assert "-" + "-- " == "--- " && "+" + "++ " == "+++ ";
    assert !("--- " <= line) && !("+++ " <= line) by {
      if l.kind == Src {
        StillNoTitle("-", "-- ", l.text);
        assert line[0] == '-';
      } else if l.kind == Dst {
        StillNoTitle("+", "++ ", l.text);
        assert line[0] == '+';
      } else {
        assert line[0] == ' ';
      }
    }
    NoRest("--- ", line);
    NoRest("+++ ", line);
    assert line[0] == Mark(l.kind)[0];
    if l.kind != Src { NoRest("-", line); }
    if l.kind == Both { NoRest("+", line); }
    hide Rest, ReadHeader;
  }

  // ----------------------------------------------------- patches read back

  lemma OneMoreLine(q: Parser, a: int, b: int, lines: seq<Line>, l: Line)
    requires q.patches != []
    ensures ValidParser(AddChunk(q, Chunk(a, b, lines))) && AddChunk(q, Chunk(a, b, lines)).at.Some?
    ensures AddLine(AddChunk(q, Chunk(a, b, lines)), l) == AddChunk(q, Chunk(a, b, lines + [l]))
  {
    var n := |q.patches| - 1;
    var chunks := q.patches[n].chunks;
    assert (chunks + [Chunk(a, b, lines)])[|chunks| := Chunk(a, b, lines + [l])] == chunks + [Chunk(a, b, lines + [l])];
  }

  lemma StepBody(p: Parser, l: Line)
    requires ValidParser(p) && p.at.Some? && CleanLine(l)
    ensures Step(p, LineText(l)) == Some(AddLine(p, l))
  {
    LineToken(l);
    hide TokenOf, LineText, AddLine, CleanLine;
  }

  lemma StepHeader(p: Parser, c: Chunk)
    requires ValidParser(p) && p.patches != [] && c.srcPos >= 0 && c.dstPos >= 0
    ensures Step(p, HeaderText(c)) == Some(AddChunk(p, Chunk(c.srcPos, c.dstPos, [])))
  {
    HeaderToken(c);
    hide TokenOf, HeaderText, AddChunk;
  }

  lemma {:induction false} FeedLines(q: Parser, a: int, b: int, lines: seq<Line>)
    requires q.patches != [] && CleanLines(lines)
    ensures AllSet(lines) && ValidParser(AddChunk(q, Chunk(a, b, [])))
    ensures Feed(AddChunk(q, Chunk(a, b, [])), LinePieces(lines)) == Some(AddChunk(q, Chunk(a, b, lines)))
    decreases |lines|
  {
    OneMoreLine(q, a, b, [], Line(Src, ""));
    if lines != [] {
      var before, l := lines[..|lines| - 1], lines[|lines| - 1];
      assert before + [l] == lines;
      FeedLines(q, a, b, before);
      hide *;
      OneMoreLine(q, a, b, before, l);
      StepBody(AddChunk(q, Chunk(a, b, before)), l);
      FeedOneMore(AddChunk(q, Chunk(a, b, [])), LinePieces(before), LineText(l));
    }
  }

  lemma FeedChunk(q: Parser, c: Chunk)
    requires q.patches != [] && ValidParser(q) && CleanChunk(c)
    ensures AllSet(c.lines) && Feed(q, ChunkPieces(c)) == Some(AddChunk(q, c))
  {
    FeedLines(q, c.srcPos, c.dstPos, c.lines);
    StepHeader(q, c);
    hide HeaderText, TokenOf, AddChunk, CleanLine, Step, Feed, LinePieces;
    FeedConcat(q, [HeaderText(c)], LinePieces(c.lines));
  }

  lemma ChunkAdded(p: Parser, before: seq<FilePatch>, src: string, dst: string, chunks: seq<Chunk>, c: Chunk)
    requires p.patches == before + [FilePatch(src, dst, chunks)]
    ensures AddChunk(p, c).patches == before + [FilePatch(src, dst, chunks + [c])]
  {
  }

  /** Reading adds the chunks to the patch begun last. */
  lemma {:induction false} FeedChunks(q: Parser, before: seq<FilePatch>, src: string, dst: string, chunks: seq<Chunk>)
    requires ValidParser(q) && q.patches == before + [FilePatch(src, dst, [])] && CleanChunks(chunks)
    ensures ChunksSet(chunks) && Feed(q, AllChunkPieces(chunks)).Some?
    ensures Feed(q, AllChunkPieces(chunks)).value.patches == before + [FilePatch(src, dst, chunks)]
    decreases |chunks|
  {
    if chunks != [] {
      var front, c := chunks[..|chunks| - 1], chunks[|chunks| - 1];
      assert front + [c] == chunks;
      FeedChunks(q, before, src, dst, front);
      hide *;
      var p := Feed(q, AllChunkPieces(front)).value;
      FeedChunk(p, c);
      FeedConcat(q, AllChunkPieces(front), ChunkPieces(c));
      ChunkAdded(p, before, src, dst, front, c);
    }
  }

  lemma FeedTitles(q: Parser, src: string, dst: string)
    requires ValidParser(q) && NoNewline(src) && NoNewline(dst)
    ensures Feed(q, ["--- " + src + "\n", "+++ " + dst + "\n"])
         == Some(q.(patches := q.patches + [FilePatch(src, dst, [])]))
  {
    var first, second := "--- " + src + "\n", "+++ " + dst + "\n";
    StepTitles(q, src, dst);
    FeedOneMore(q, [first], second);
    assert [first] + [second] == [first, second];
    hide Step, Feed;
  }

  lemma StepTitles(q: Parser, src: string, dst: string)
    requires ValidParser(q) && NoNewline(src) && NoNewline(dst)
    ensures Step(q, "--- " + src + "\n") == Some(AddPatch(q, src))
    ensures Step(AddPatch(q, src), "+++ " + dst + "\n") == Some(q.(patches := q.patches + [FilePatch(src, dst, [])]))
  {
    TitleToken(src);
    TitleToken(dst);
    hide TokenOf;
    assert SetDst(AddPatch(q, src), dst).patches == q.patches + [FilePatch(src, dst, [])];
  }

  lemma FeedPatch(q: Parser, p: FilePatch)
    requires ValidParser(q) && CleanPatch(p)
    ensures ChunksSet(p.chunks) && Feed(q, PatchPieces(p)).Some?
    ensures Feed(q, PatchPieces(p)).value.patches == q.patches + [p]
  {
    FeedTitles(q, p.src, p.dst);
    var begun := q.(patches := q.patches + [FilePatch(p.src, p.dst, [])]);
    FeedChunks(begun, q.patches, p.src, p.dst, p.chunks);
    hide Feed, AllChunkPieces, NoNewline, CleanChunks;
    FeedConcat(q, ["--- " + p.src + "\n", "+++ " + p.dst + "\n"], AllChunkPieces(p.chunks));
  }

  lemma {:induction false} FeedPatches(ps: seq<FilePatch>)
    requires Clean(ps)
    ensures PatchesSet(ps) && Feed(START, Pieces(ps)).Some? && Feed(START, Pieces(ps)).value.patches == ps
    decreases |ps|
  {
    if ps != [] {
      var front, p := ps[..|ps| - 1], ps[|ps| - 1];
      assert front + [p] == ps;
      FeedPatches(front);
      assert CleanPatch(p) && ValidParser(START);
      hide *;
      FeedPatch(Feed(START, Pieces(front)).value, p);
      FeedConcat(START, Pieces(front), PatchPieces(p));
    }
  }

  // -------------------------------------------------------- the lines of a text

  predicate FullLine(s: string) {
    s != "" && s[|s| - 1] == '\n' && NoNewline(s[..|s| - 1])
  }

  lemma {:induction false} LengthOfFirst(s: string, t: string)
    requires FullLine(s)
    ensures s + t != "" && LineLength(s + t) == |s|
    decreases |s|
  {
    if |s| > 1 {
      assert s[0] == s[..|s| - 1][0];
      assert (s + t)[1..] == s[1..] + t;
      assert FullLine(s[1..]) by {
        assert s[1..][..|s| - 2] == s[..|s| - 1][1..];
      }
      LengthOfFirst(s[1..], t);
    }
  }

  lemma {:induction false} ConcatFirst(s: string, pieces: seq<string>)
    ensures Concat([s] + pieces) == s + Concat(pieces)
    decreases |pieces|
  {
    if pieces == [] {
      assert [s] + pieces == [s] && [s][..0] == [];
    } else {
      var n := |pieces| - 1;
      ConcatFirst(s, pieces[..n]);
      assert ([s] + pieces)[..n + 1] == [s] + pieces[..n];
      Regroup(s, Concat(pieces[..n]), pieces[n]);
    }
  }

  lemma {:induction false} LinesOfPieces(pieces: seq<string>)
    requires AllFull(pieces)
    ensures LinesOf(Concat(pieces)) == pieces
    decreases |pieces|
  {
    if pieces != [] {
      var s, rest := pieces[0], pieces[1..];
      assert [s] + rest == pieces;
      ConcatFirst(s, rest);
      LinesOfPieces(rest);
      LengthOfFirst(s, Concat(rest));
      assert (s + Concat(rest))[..|s|] == s && (s + Concat(rest))[|s|..] == Concat(rest);
      hide Concat, LineLength, FullLine;
    }
  }

  lemma {:induction false} LinePiecesAreFull(lines: seq<Line>)
    requires CleanLines(lines)
    ensures AllSet(lines) && AllFull(LinePieces(lines))
  {
    if lines != [] {
      var front, l := lines[..|lines| - 1], lines[|lines| - 1];
      LinePiecesAreFull(front);
      assert front + [l] == lines;
      assert LineText(l)[..|LineText(l)| - 1] == Mark(l.kind) + l.text;
      hide LinePieces, LineText;
    }
  }

  predicate AllFull(pieces: seq<string>) {
    forall i :: 0 <= i < |pieces| ==> FullLine(pieces[i])
  }

  lemma {:induction false} NaturalIsFull(n: nat)
    ensures NoNewline(Natural(n))
  {
    if n >= 10 { NaturalIsFull(n / 10); }
  }

  lemma HeaderIsFull(c: Chunk)
    requires c.srcPos >= 0 && c.dstPos >= 0
    ensures FullLine(HeaderText(c))
  {
    NaturalIsFull(c.srcPos);
    NaturalIsFull(SrcCount(c.lines));
    NaturalIsFull(c.dstPos);
    NaturalIsFull(DstCount(c.lines));
    var a, b, u, v := Natural(c.srcPos), Natural(SrcCount(c.lines)), Natural(c.dstPos), Natural(DstCount(c.lines));
    assert HeaderText(c) == "@@ -" + a + "," + b + " +" + u + "," + v + " @@\n";
    hide HeaderText, Natural;
  }

  lemma {:induction false} ChunkPiecesAreFull(chunks: seq<Chunk>)
    requires CleanChunks(chunks)
    ensures ChunksSet(chunks) && AllFull(AllChunkPieces(chunks))
  {
    if chunks != [] {
      var front, c := chunks[..|chunks| - 1], chunks[|chunks| - 1];
      assert front + [c] == chunks && CleanChunk(c);
      ChunkPiecesAreFull(front);
      OneChunkIsFull(c);
      hide CleanChunk, ChunkPieces, FullLine;
    }
  }

  lemma OneChunkIsFull(c: Chunk)
    requires CleanChunk(c)
    ensures AllSet(c.lines) && AllFull(ChunkPieces(c))
  {
    HeaderIsFull(c);
    LinePiecesAreFull(c.lines);
    hide HeaderText, LinePieces, FullLine;
  }

  lemma TitlesAreFull(p: FilePatch)
    requires NoNewline(p.src) && NoNewline(p.dst)
    ensures AllFull(["--- " + p.src + "\n", "+++ " + p.dst + "\n"])
  {
  }

  lemma {:induction false} PiecesAreFull(ps: seq<FilePatch>)
    requires Clean(ps)
    ensures PatchesSet(ps) && AllFull(Pieces(ps))
  {
    if ps != [] {
      var front, p := ps[..|ps| - 1], ps[|ps| - 1];
      assert front + [p] == ps && CleanPatch(p) && Clean(front);
      PiecesAreFull(front);
      ChunkPiecesAreFull(p.chunks);
      TitlesAreFull(p);
      hide *;
      PatchPiecesAre(p);
    }
  }

  // ----------------------------------------------------------- round trips

  /** Written to a file and read back, the patch set is the same. */
  ghost predicate Survives(ps: seq<FilePatch>) {
    PatchesSet(ps) && ParseText(LinesOf(Concat(Pieces(ps)))) == Some(ps)
  }

  /** The clean patch sets are exactly those that survive. */
  lemma SurvivesExactlyWhenClean(ps: seq<FilePatch>)
    ensures Survives(ps) <==> Clean(ps)
  {
    if Clean(ps) {
      FeedPatches(ps);
      PiecesAreFull(ps);
      LinesOfPieces(Pieces(ps));
      hide Pieces, LinesOf, Concat, Feed, Clean;
    } else if PatchesSet(ps) {
      ParsedIsClean(LinesOf(Concat(Pieces(ps))));
    }
  }

  /** What was read once survives, so writing and reading it again changes nothing. */
  lemma ReadingAgain(lines: seq<string>)
    requires ParseText(lines).Some?
    ensures Survives(ParseText(lines).value)
  {
    ParsedIsClean(lines);
    SurvivesExactlyWhenClean(ParseText(lines).value);
  }

  // ------------------------------------------------- the counts in a header

  function StartingWith(pieces: seq<string>, c: char): nat {
    if pieces == [] then 0
    else
      var last := pieces[|pieces| - 1];
      StartingWith(pieces[..|pieces| - 1], c) + if last != "" && last[0] == c then 1 else 0
  }

  lemma {:induction false} CountsOfPieces(lines: seq<Line>)
    requires AllSet(lines)
    ensures SrcCount(lines) == StartingWith(LinePieces(lines), '-') + StartingWith(LinePieces(lines), ' ')
    ensures DstCount(lines) == StartingWith(LinePieces(lines), '+') + StartingWith(LinePieces(lines), ' ')
  {
    if lines != [] {
      var front, l := lines[..|lines| - 1], lines[|lines| - 1];
      assert l.kind != Unset;
      CountsOfPieces(front);
      hide LinePieces, LineText, StartingWith;
    }
  }

  lemma SplitPieces(c: Chunk)
    requires AllSet(c.lines)
    ensures ChunkPieces(c) != [] && ChunkPieces(c)[0] == HeaderText(c) && ChunkPieces(c)[1..] == LinePieces(c.lines)
  {
  }

  /** The lengths in a written header are the numbers of lines under it that belong to each side. */
  lemma HeaderCountsItsBody(c: Chunk)
    requires AllSet(c.lines) && c.srcPos >= 0 && c.dstPos >= 0
    ensures
      var body := ChunkPieces(c)[1..];
      ReadHeader(ChunkPieces(c)[0])
      == Some(Header(c.srcPos, StartingWith(body, '-') + StartingWith(body, ' '),
                     c.dstPos, StartingWith(body, '+') + StartingWith(body, ' ')))
  {
    hide *;
    SplitPieces(c);
    HeaderBack(c);
    CountsOfPieces(c.lines);
  }
}
