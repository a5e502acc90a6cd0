/** The patch objects of utils/check-style.py, and the methods that read, write and change them. */
module Patches {
  import opened Common
  import opened PatchText
  import opened PatchBlanks

  /** A text file being written. */
  class TextFile {
    var content: string

    constructor ()
      ensures content == ""
    {
      content := "";
    }

    method Write(s: string)
      modifies this
      ensures content == old(content) + s
    {
      content := content + s;
    }
  }

  class PatchChunkLine {
    var kind: Kind
    var text: string

    constructor ()
      ensures kind == Unset && text == ""
    {
      kind, text := Unset, "";
    }

    method Set(k: Kind, line: string)
      modifies this
      ensures kind == k && text == line
    {
      kind, text := k, line;
    }

    method AppendToLine(s: string)
      modifies this
      ensures kind == old(kind) && text == old(text) + s
    {
      text := text + s;
    }

    /** The false result stands for the exception. */
    method Write(f: TextFile) returns (ok: bool)
      modifies f
      ensures ok <==> kind != Unset
      ensures f.content == if ok then old(f.content) + LineText(Line(kind, text)) else old(f.content)
    {
      if kind == Src {
        f.Write("-" + text + "\n");
      } else if kind == Dst {
        f.Write("+" + text + "\n");
      } else if kind == Both {
        f.Write(" " + text + "\n");
      } else {
        return false;
      }
      ok := true;
    }
  }

  ghost predicate ShowsLines(lines: seq<PatchChunkLine>, v: seq<Line>)
    reads lines
  {
    |lines| == |v| && forall k :: 0 <= k < |lines| ==> lines[k].kind == v[k].kind && lines[k].text == v[k].text
  }

  class PatchChunk {
    var lines: seq<PatchChunkLine>
    var srcPos: int
    var dstPos: int

    constructor (srcPos: int, dstPos: int)
      ensures lines == [] && this.srcPos == srcPos && this.dstPos == dstPos
    {
      this.lines, this.srcPos, this.dstPos := [], srcPos, dstPos;
    }

    /** The chunk is as the value describes it. */
    ghost predicate Shows(c: Chunk)
      reads this, lines
    {
      srcPos == c.srcPos && dstPos == c.dstPos && ShowsLines(lines, c.lines)
    }

    method AddLine(line: PatchChunkLine)
      modifies this
      ensures lines == old(lines) + [line] && srcPos == old(srcPos) && dstPos == old(dstPos)
    {
      lines := lines + [line];
    }

    /** The lines of one side: the objects themselves, which both sides may share. */
    method SideLines(src: bool, ghost c: Chunk) returns (r: seq<PatchChunkLine>)
      requires Shows(c)
      ensures |r| == |Side(c.lines, src)|
      ensures forall i :: 0 <= i < |r| ==> r[i] == lines[Side(c.lines, src)[i]]
    {
      hide *;
      r := [];
      ghost var at: seq<nat> := [];
      NoSide(c.lines, src);
      PositionsShown(c);
      for i := 0 to |lines|
        invariant at == Side(c.lines[..i], src) && |r| == |at|
        invariant forall j :: 0 <= j < |r| ==> at[j] < i && r[j] == lines[at[j]]
      {
        LineShown(c, i);
        SideStep(c.lines, src, i);
        if lines[i].kind == Both || lines[i].kind == (if src then Src else Dst) {
          r, at := r + [lines[i]], at + [i];
        }
      }
      assert c.lines[..|lines|] == c.lines;
    }

    method SideLen(src: bool, ghost c: Chunk) returns (n: nat)
      requires Shows(c)
      ensures n == if src then SrcCount(c.lines) else DstCount(c.lines)
    {
      var r := SideLines(src, c);
      SideCounts(c.lines, src);
      n := |r|;
    }

    method Write(f: TextFile, ghost c: Chunk) returns (ok: bool)
      requires Shows(c)
      modifies f
      ensures ok <==> AllSet(c.lines)
      ensures f.content == old(f.content) + Concat(WrittenOfChunk(c))
      ensures ok ==> WrittenOfChunk(c) == ChunkPieces(c)
    {
      hide *;
      var srcLen := SideLen(true, c);
      var dstLen := SideLen(false, c);
      PositionsShown(c);
      HeaderIs(c);
      var header := "@@ -" + Decimal(srcPos) + "," + Decimal(srcLen)
                    + " +" + Decimal(dstPos) + "," + Decimal(dstLen) + " @@\n";
      assert header == HeaderText(c);
      f.Write(header);
      ghost var pieces := [header];
      ConcatOne(header);
      NoPieces(c.lines);
      for i := 0 to |lines|
        invariant Shows(c) && AllSet(c.lines[..i])
        invariant pieces == [HeaderText(c)] + LinePieces(c.lines[..i])
        invariant f.content == old(f.content) + Concat(pieces)
      {
        LineShown(c, i);
        var written := lines[i].Write(f);
        if !written {
          StoppedAt(c, i);
          return false;
        }
        PieceStep(c.lines, i);
        ConcatOneMore(pieces, LineText(c.lines[i]));
        pieces := pieces + [LineText(c.lines[i])];
      }
      PositionsShown(c);
      assert c.lines[..|lines|] == c.lines;
      ChunkPiecesAre(c);
      ok := true;
    }

    lemma PositionsShown(c: Chunk)
      requires Shows(c)
      ensures srcPos == c.srcPos && dstPos == c.dstPos && |lines| == |c.lines|
    {
    }

    lemma LineShown(c: Chunk, i: nat)
      requires Shows(c) && i < |lines|
      ensures |lines| == |c.lines| && Line(lines[i].kind, lines[i].text) == c.lines[i]
    {
    }
  }

  lemma HeaderIs(c: Chunk)
    ensures HeaderText(c) == "@@ -" + Decimal(c.srcPos) + "," + Decimal(SrcCount(c.lines))
                           + " +" + Decimal(c.dstPos) + "," + Decimal(DstCount(c.lines)) + " @@\n"
  {
  }

  lemma ChunkPiecesAre(c: Chunk)
    requires AllSet(c.lines)
    ensures ChunkPieces(c) == [HeaderText(c)] + LinePieces(c.lines) && WrittenOfChunk(c) == ChunkPieces(c)
  {
  }

  lemma ConcatOneMore(pieces: seq<string>, s: string)
    ensures Concat(pieces + [s]) == Concat(pieces) + s
  {
  }

  lemma ConcatOne(s: string)
    ensures Concat([s]) == s
  {
  }

  lemma {:induction false} ConcatBoth(a: seq<string>, b: seq<string>)
    ensures Concat(a + b) == Concat(a) + Concat(b)
  {
    if b == [] {
      assert a + b == a;
    } else {
      var n := |b| - 1;
      ConcatBoth(a, b[..n]);
      assert (a + b)[..|a + b| - 1] == a + b[..n] && (a + b)[|a + b| - 1] == b[n];
    }
  }

  lemma NoPieces(lines: seq<Line>)
    ensures AllSet(lines[..0]) && LinePieces(lines[..0]) == []
  {
  }

  lemma StoppedAt(c: Chunk, i: nat)
    requires i < |c.lines| && AllSet(c.lines[..i]) && c.lines[i].kind == Unset
    ensures !AllSet(c.lines) && WrittenOfChunk(c) == [HeaderText(c)] + LinePieces(c.lines[..i])
  {
    var done := UpToUnset(c.lines);
    assert done == c.lines[..|done|] && |done| == i;
  }

  lemma PieceStep(lines: seq<Line>, i: nat)
    requires i < |lines| && AllSet(lines[..i]) && lines[i].kind != Unset
    ensures AllSet(lines[..i + 1]) && LinePieces(lines[..i + 1]) == LinePieces(lines[..i]) + [LineText(lines[i])]
  {
    assert lines[..i + 1][..i] == lines[..i];
  }

  lemma NoSide(lines: seq<Line>, src: bool)
    ensures Side(lines[..0], src) == []
  {
  }

  lemma SideStep(lines: seq<Line>, src: bool, i: nat)
    requires i < |lines|
    ensures Side(lines[..i + 1], src)
         == if lines[i].kind == Both || lines[i].kind == (if src then Src else Dst) then Side(lines[..i], src) + [i]
            else Side(lines[..i], src)
  {
    assert lines[..i + 1][..i] == lines[..i];
  }

  ghost function LinesIn(chunks: seq<PatchChunk>): set<PatchChunkLine>
    reads chunks
  {
    set k, l | 0 <= k < |chunks| && l in chunks[k].lines :: l
  }

  ghost predicate ShowsChunks(chunks: seq<PatchChunk>, v: seq<Chunk>)
    reads chunks, LinesIn(chunks)
  {
    && |chunks| == |v|
    && forall k :: 0 <= k < |chunks| ==>
         assert forall l :: l in chunks[k].lines ==> l in LinesIn(chunks);
         chunks[k].Shows(v[k])
  }

  class Patch {
    var src: string
    var dst: string
    var chunks: seq<PatchChunk>

    constructor ()
      ensures src == "" && dst == "" && chunks == []
    {
      src, dst, chunks := "", "", [];
    }

    ghost predicate Shows(p: FilePatch)
      reads this, chunks, LinesIn(chunks)
    {
      src == p.src && dst == p.dst && ShowsChunks(chunks, p.chunks)
    }

    method AddChunk(chunk: PatchChunk)
      modifies this
      ensures src == old(src) && dst == old(dst) && chunks == old(chunks) + [chunk]
    {
      chunks := chunks + [chunk];
    }

    method SetSrc(name: string)
      modifies this
      ensures src == name && dst == old(dst) && chunks == old(chunks)
    {
      src := name;
    }

    method SetDst(name: string)
      modifies this
      ensures src == old(src) && dst == name && chunks == old(chunks)
    {
      dst := name;
    }

    method Write(f: TextFile, ghost p: FilePatch) returns (ok: bool)
      requires Shows(p)
      modifies f
      ensures ok <==> ChunksSet(p.chunks)
      ensures f.content == old(f.content) + Concat(WrittenOfPatch(p))
      ensures ok ==> WrittenOfPatch(p) == PatchPieces(p)
    {
      hide ChunksSet, AllSet, AllChunkPieces, ChunkPieces, PatchPieces, Concat;
      hide WrittenOfChunk, WrittenOfChunks, WrittenOfPatch, UpToUnset, SetChunks, LinePieces, HeaderText;
      Shown(p);
      ghost var titles := ["--- " + p.src + "\n", "+++ " + p.dst + "\n"];
      f.Write("--- " + src + "\n");
      f.Write("+++ " + dst + "\n");
      ConcatOne("--- " + p.src + "\n");
      ConcatOneMore(["--- " + p.src + "\n"], "+++ " + p.dst + "\n");
      assert titles == ["--- " + p.src + "\n"] + ["+++ " + p.dst + "\n"];
      ghost var pieces := titles;
      NoChunkPieces(p.chunks);
      for i := 0 to |chunks|
        invariant Shows(p) && ChunksSet(p.chunks[..i])
        invariant pieces == titles + AllChunkPieces(p.chunks[..i])
        invariant f.content == old(f.content) + Concat(pieces)
      {
        ConcatBoth(pieces, WrittenOfChunk(p.chunks[i]));
        var written := chunks[i].Write(f, p.chunks[i]);
        if !written {
          WrittenUpTo(p.chunks, i);
          WrittenIs(p, AllChunkPieces(p.chunks[..i]) + WrittenOfChunk(p.chunks[i]));
          Regroup(titles, AllChunkPieces(p.chunks[..i]), WrittenOfChunk(p.chunks[i]));
          return false;
        }
        ChunkStep(p.chunks, i);
        pieces := pieces + ChunkPieces(p.chunks[i]);
      }
      assert p.chunks[..|chunks|] == p.chunks;
      PatchPiecesAre(p);
      WrittenWhole(p.chunks);
      WrittenIs(p, AllChunkPieces(p.chunks));
      ok := true;
    }

    lemma Shown(p: FilePatch)
      requires Shows(p)
      ensures src == p.src && dst == p.dst && |chunks| == |p.chunks|
    {
    }
  }

  lemma NoChunkPieces(chunks: seq<Chunk>)
    ensures ChunksSet(chunks[..0]) && AllChunkPieces(chunks[..0]) == []
  {
  }

  lemma WrittenIs(p: FilePatch, pieces: seq<string>)
    requires WrittenOfChunks(p.chunks) == pieces
    ensures WrittenOfPatch(p) == ["--- " + p.src + "\n", "+++ " + p.dst + "\n"] + pieces
  {
  }

  lemma WrittenWhole(chunks: seq<Chunk>)
    requires ChunksSet(chunks)
    ensures WrittenOfChunks(chunks) == AllChunkPieces(chunks)
  {
    assert SetChunks(chunks) == |chunks| && chunks[..|chunks|] == chunks;
    hide SetChunks, AllChunkPieces;
  }

  /** Up to a chunk that cannot be written. */
  lemma WrittenUpTo(chunks: seq<Chunk>, i: nat)
    requires i < |chunks| && ChunksSet(chunks[..i]) && !AllSet(chunks[i].lines)
    ensures !ChunksSet(chunks)
    ensures WrittenOfChunks(chunks) == AllChunkPieces(chunks[..i]) + WrittenOfChunk(chunks[i])
  {
    SetChunksAt(chunks, i);
    hide SetChunks, AllChunkPieces, WrittenOfChunk, AllSet;
  }

  lemma SetChunksAt(chunks: seq<Chunk>, i: nat)
    requires i < |chunks| && ChunksSet(chunks[..i]) && !AllSet(chunks[i].lines)
    ensures SetChunks(chunks) == i
  {
    hide AllSet;
  }

  lemma ChunkStep(chunks: seq<Chunk>, i: nat)
    requires i < |chunks| && ChunksSet(chunks[..i]) && AllSet(chunks[i].lines)
    ensures ChunksSet(chunks[..i + 1])
    ensures AllChunkPieces(chunks[..i + 1]) == AllChunkPieces(chunks[..i]) + ChunkPieces(chunks[i])
  {
    assert chunks[..i + 1][..i] == chunks[..i];
    hide ChunkPieces;
  }
}
