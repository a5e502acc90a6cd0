/** The unified diffs of utils/check-style.py as values: how they are written as text, how text is
    read, and which patch sets survive being written and read back. */
module PatchText {
  import opened Common

  datatype Kind = Unset | Src | Dst | Both

  datatype Line = Line(kind: Kind, text: string)

  datatype Chunk = Chunk(srcPos: int, dstPos: int, lines: seq<Line>)

  datatype FilePatch = FilePatch(src: string, dst: string, chunks: seq<Chunk>)

  predicate OnSrcSide(k: Kind) {
    k == Src || k == Both
  }

  predicate OnDstSide(k: Kind) {
    k == Dst || k == Both
  }

  function SrcCount(lines: seq<Line>): nat {
    if lines == [] then 0
    else SrcCount(lines[..|lines| - 1]) + if OnSrcSide(lines[|lines| - 1].kind) then 1 else 0
  }

  function DstCount(lines: seq<Line>): nat {
    if lines == [] then 0
    else DstCount(lines[..|lines| - 1]) + if OnDstSide(lines[|lines| - 1].kind) then 1 else 0
  }

  // ------------------------------------------------------- decimal numbers

  function DigitChar(d: nat): char
    requires d < 10
  {
    '0' + d as char
  }

  function Natural(n: nat): string {
    if n < 10 then [DigitChar(n)] else Natural(n / 10) + [DigitChar(n % 10)]
  }

  /** What %d prints. */
  function Decimal(n: int): string {
    if n < 0 then "-" + Natural(-n) else Natural(n)
  }

  predicate IsDigit(c: char) {
    '0' <= c <= '9'
  }

  predicate AllDigits(s: string) {
    forall i :: 0 <= i < |s| ==> IsDigit(s[i])
  }

  function NumberOf(s: string): nat
    requires AllDigits(s)
  {
    if s == [] then 0 else 10 * NumberOf(s[..|s| - 1]) + (s[|s| - 1] as int - '0' as int)
  }

  /** Numbers are decimal. */
  lemma NextDigit(s: string, c: char)
    requires AllDigits(s) && '0' <= c <= '9'
    ensures AllDigits(s + [c]) && NumberOf(s + [c]) == 10 * NumberOf(s) + (c as int - 48) && NumberOf("") == 0
  {
    assert (s + [c])[..|s|] == s;
  }

  lemma {:induction false} NaturalBack(n: nat)
    ensures Natural(n) != [] && AllDigits(Natural(n)) && NumberOf(Natural(n)) == n
  {
    if n < 10 {
      assert Natural(n)[..0] == [];
    } else {
      NaturalBack(n / 10);
      assert Natural(n)[..|Natural(n)| - 1] == Natural(n / 10);
    }
  }

  // -------------------------------------------------------------- patterns

  predicate NoNewline(s: string) {
    forall i :: 0 <= i < |s| ==> s[i] != '\n'
  }

  /** The group of a pattern made of a fixed text and then everything to the end of the line. */
  function Rest(prefix: string, line: string): Option<string> {
    if !(prefix <= line) then None
    else
      var rest := line[|prefix|..];
      var body := if rest != [] && rest[|rest| - 1] == '\n' then rest[..|rest| - 1] else rest;
      if NoNewline(body) then Some(body) else None
  }

  function DigitsAt(s: string): nat
    ensures DigitsAt(s) <= |s| && AllDigits(s[..DigitsAt(s)])
    ensures DigitsAt(s) < |s| ==> !IsDigit(s[DigitsAt(s)])
  {
    if s == [] || !IsDigit(s[0]) then 0
    else
      assert s[..1 + DigitsAt(s[1..])] == [s[0]] + s[1..][..DigitsAt(s[1..])];
      1 + DigitsAt(s[1..])
  }

  /** A number and the text after it, which must not be empty of digits. */
  function TakeNumber(s: string): Option<(nat, string)> {
    var n := DigitsAt(s);
    if n == 0 then None else Some((NumberOf(s[..n]), s[n..]))
  }

  function TakeText(t: string, s: string): Option<string> {
    if t <= s then Some(s[|t|..]) else None
  }

  datatype Header = Header(srcPos: nat, srcLen: nat, dstPos: nat, dstLen: nat)

  /** The two numbers before and after a comma. */
  function TakePair(s: string): Option<(nat, nat, string)> {
    match TakeNumber(s)
    case None => None
    case Some((a, s1)) =>
      match TakeText(",", s1)
      case None => None
      case Some(s2) =>
        match TakeNumber(s2)
        case None => None
        case Some((b, s3)) => Some((a, b, s3))
  }

  /** The pattern of a chunk's first line; what follows it on the line is not looked at. */
  function ReadHeader(line: string): Option<Header> {
    match TakeText("@@ -", line)
    case None => None
    case Some(s1) =>
      match TakePair(s1)
      case None => None
      case Some((a, b, s2)) =>
        match TakeText(" +", s2)
        case None => None
        case Some(s3) =>
          match TakePair(s3)
          case None => None
          case Some((c, d, s4)) => if " @@" <= s4 then Some(Header(a, b, c, d)) else None
  }

  // --------------------------------------------------------------- reading

  /** What has been read, and where the chunk is that lines are added to: the number of its patch,
      and its own number in that patch. */
  datatype Parser = Parser(patches: seq<FilePatch>, at: Option<(nat, nat)>)

  ghost predicate ValidParser(p: Parser) {
    p.at.Some? ==> p.at.value.0 < |p.patches| && p.at.value.1 < |p.patches[p.at.value.0].chunks|
  }

  function AddPatch(p: Parser, name: string): Parser {
    p.(patches := p.patches + [FilePatch(name, "", [])])
  }

  function SetDst(p: Parser, name: string): Parser
    requires p.patches != []
  {
    var n := |p.patches| - 1;
    p.(patches := p.patches[n := p.patches[n].(dst := name)])
  }

  function AddChunk(p: Parser, c: Chunk): Parser
    requires p.patches != []
  {
    var n := |p.patches| - 1;
    Parser(p.patches[n := p.patches[n].(chunks := p.patches[n].chunks + [c])], Some((n, |p.patches[n].chunks|)))
  }

  function AddLine(p: Parser, l: Line): Parser
    requires ValidParser(p) && p.at.Some?
  {
    var (i, j) := p.at.value;
    var c := p.patches[i].chunks[j];
    var chunks := p.patches[i].chunks[j := c.(lines := c.lines + [l])];
    p.(patches := p.patches[i := p.patches[i].(chunks := chunks)])
  }

  /** The kind of line a line of text is, by the first pattern that fits. */
  datatype Token =
    | SrcFile(name: string)
    | DstFile(name: string)
    | ChunkStart(header: Header)
    | Body(line: Line)
    | Unknown

  function TokenOf(line: string): Token {
    if Rest("--- ", line).Some? then SrcFile(Rest("--- ", line).value)
    else if Rest("+++ ", line).Some? then DstFile(Rest("+++ ", line).value)
    else if ReadHeader(line).Some? then ChunkStart(ReadHeader(line).value)
    else if Rest("-", line).Some? then Body(Line(Src, Rest("-", line).value))
    else if Rest("+", line).Some? then Body(Line(Dst, Rest("+", line).value))
    else if Rest(" ", line).Some? then Body(Line(Both, Rest(" ", line).value))
    else Unknown
  }

  /** One line read; None stands for an exception. */
  function Step(p: Parser, line: string): (r: Option<Parser>)
    requires ValidParser(p)
    ensures r.Some? ==> ValidParser(r.value)
  {
    match TokenOf(line)
    case SrcFile(name) => Some(AddPatch(p, name))
    case DstFile(name) => if p.patches == [] then None else Some(SetDst(p, name))
    case ChunkStart(h) => if p.patches == [] then None else Some(AddChunk(p, Chunk(h.srcPos, h.dstPos, [])))
    case Body(l) => if p.at.None? then None else Some(AddLine(p, l))
    case Unknown => None
  }

  function Feed(p: Parser, lines: seq<string>): (r: Option<Parser>)
    requires ValidParser(p)
    ensures r.Some? ==> ValidParser(r.value)
  {
    if lines == [] then Some(p)
    else
      var before := Feed(p, lines[..|lines| - 1]);
      if before.None? then None else Step(before.value, lines[|lines| - 1])
  }

  const START := Parser([], None)

  function ParseText(lines: seq<string>): Option<seq<FilePatch>> {
    var r := Feed(START, lines);
    if r.None? then None else Some(r.value.patches)
  }

  lemma {:induction false} FeedConcat(p: Parser, a: seq<string>, b: seq<string>)
    requires ValidParser(p)
    ensures Feed(p, a + b) == match Feed(p, a) { case None => None case Some(q) => Feed(q, b) }
    decreases |b|
  {
    if b == [] {
      assert a + b == a;
    } else {
      var n := |b| - 1;
      assert (a + b)[..|a + b| - 1] == a + b[..n] && (a + b)[|a + b| - 1] == b[n];
      FeedConcat(p, a, b[..n]);
      hide Step;
    }
  }

  lemma FeedOneMore(p: Parser, lines: seq<string>, line: string)
    requires ValidParser(p)
    ensures Feed(p, lines + [line]) == match Feed(p, lines) { case None => None case Some(q) => Step(q, line) }
  {
  }

  // --------------------------------------------------------------- writing

  function Mark(k: Kind): string
    requires k != Unset
  {
    match k
    case Src => "-"
    case Dst => "+"
    case Both => " "
  }

  ghost predicate AllSet(lines: seq<Line>) {
    forall i :: 0 <= i < |lines| ==> lines[i].kind != Unset
  }

  ghost predicate ChunksSet(chunks: seq<Chunk>) {
    forall i :: 0 <= i < |chunks| ==> AllSet(chunks[i].lines)
  }

  ghost predicate PatchesSet(ps: seq<FilePatch>) {
    forall i :: 0 <= i < |ps| ==> ChunksSet(ps[i].chunks)
  }

  function LineText(l: Line): string
    requires l.kind != Unset
  {
    Mark(l.kind) + l.text + "\n"
  }

  function HeaderText(c: Chunk): string {
    "@@ -" + Decimal(c.srcPos) + "," + Decimal(SrcCount(c.lines))
    + " +" + Decimal(c.dstPos) + "," + Decimal(DstCount(c.lines)) + " @@\n"
  }

  /** The pieces of text that are written, each ended by a newline. */
  function LinePieces(lines: seq<Line>): (r: seq<string>)
    requires AllSet(lines)
    ensures |r| == |lines|
  {
    if lines == [] then []
    else LinePieces(lines[..|lines| - 1]) + [LineText(lines[|lines| - 1])]
  }

  function ChunkPieces(c: Chunk): seq<string>
    requires AllSet(c.lines)
  {
    [HeaderText(c)] + LinePieces(c.lines)
  }

  function AllChunkPieces(chunks: seq<Chunk>): seq<string>
    requires ChunksSet(chunks)
  {
    if chunks == [] then []
    else AllChunkPieces(chunks[..|chunks| - 1]) + ChunkPieces(chunks[|chunks| - 1])
  }

  function PatchPieces(p: FilePatch): seq<string>
    requires ChunksSet(p.chunks)
  {
    ["--- " + p.src + "\n", "+++ " + p.dst + "\n"] + AllChunkPieces(p.chunks)
  }

  lemma PatchPiecesAre(p: FilePatch)
    requires ChunksSet(p.chunks)
    ensures PatchPieces(p) == ["--- " + p.src + "\n", "+++ " + p.dst + "\n"] + AllChunkPieces(p.chunks)
  {
  }

  function Pieces(ps: seq<FilePatch>): seq<string>
    requires PatchesSet(ps)
  {
    if ps == [] then [] else Pieces(ps[..|ps| - 1]) + PatchPieces(ps[|ps| - 1])
  }

  // What is written of a patch with a line of no kind: everything before that line.

  function UpToUnset(lines: seq<Line>): (r: seq<Line>)
    ensures r <= lines && AllSet(r)
    ensures r == lines <==> AllSet(lines)
    ensures |r| < |lines| ==> lines[|r|].kind == Unset
  {
    if lines == [] || lines[0].kind == Unset then []
    else
      var rest := UpToUnset(lines[1..]);
      assert lines == [lines[0]] + lines[1..];
      [lines[0]] + rest
  }

  function WrittenOfChunk(c: Chunk): seq<string> {
    [HeaderText(c)] + LinePieces(UpToUnset(c.lines))
  }

  /** How many chunks there are before the first with a line of no kind. */
  ghost function SetChunks(chunks: seq<Chunk>): (k: nat)
    ensures k <= |chunks| && ChunksSet(chunks[..k])
    ensures k < |chunks| ==> !AllSet(chunks[k].lines)
  {
    if chunks == [] || !AllSet(chunks[0].lines) then 0
    else
      var k := SetChunks(chunks[1..]);
      assert chunks[..k + 1] == [chunks[0]] + chunks[1..][..k];
      k + 1
  }

  ghost function WrittenOfChunks(chunks: seq<Chunk>): seq<string> {
    var k := SetChunks(chunks);
    AllChunkPieces(chunks[..k]) + if k < |chunks| then WrittenOfChunk(chunks[k]) else []
  }

  ghost function WrittenOfPatch(p: FilePatch): seq<string> {
    ["--- " + p.src + "\n", "+++ " + p.dst + "\n"] + WrittenOfChunks(p.chunks)
  }

  function Concat(pieces: seq<string>): string {
    if pieces == [] then "" else Concat(pieces[..|pieces| - 1]) + pieces[|pieces| - 1]
  }

  /** The lines of a text file, as reading it yields them: each with the newline that ends it. */
  function LinesOf(text: string): seq<string> {
    if text == "" then []
    else
      var n := LineLength(text);
      [text[..n]] + LinesOf(text[n..])
  }

  function LineLength(text: string): (n: nat)
    requires text != ""
    ensures 0 < n <= |text|
  {
    if text[0] == '\n' || |text| == 1 then 1 else 1 + LineLength(text[1..])
  }
}
