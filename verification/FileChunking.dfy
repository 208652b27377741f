// Splitting a file into chunks for summaries: the chunks tile the file's lines exactly.
module FileChunking {
  import opened TextLines
  import opened Chunking
  import Packing

  const CHUNK_FILE_MAX_CHUNK_CHARS: nat := 12000 * CHARS_PER_TOKEN_ESTIMATE

  // Fixed-size slices of one line; an empty line gives one empty piece.
  function FixedSlices(line: string, maxChars: nat): (pieces: seq<string>)
    requires maxChars > 0
  {
    if |line| <= maxChars then [line] else [line[..maxChars]] + FixedSlices(line[maxChars..], maxChars)
  }

  lemma {:induction false} FixedSlicesTile(line: string, maxChars: nat)
    requires maxChars > 0
    ensures Concat(FixedSlices(line, maxChars)) == line
    ensures forall piece | piece in FixedSlices(line, maxChars) :: |piece| <= maxChars
  {
    if |line| <= maxChars {
      Packing.ConcatOne(line);
    } else {
      FixedSlicesTile(line[maxChars..], maxChars);
      assert line == line[..maxChars] + line[maxChars..];
    }
  }

  // The text of the chunks put back together: slices of one line meet directly, everything else
  // at a line end.
  function Glue(chunks: seq<Chunk>): string
  {
    if chunks == [] then ""
    else if |chunks| == 1 then chunks[0].text
    else
      var last, previous := chunks[|chunks| - 1], chunks[|chunks| - 2];
      Glue(chunks[..|chunks| - 1]) + (if last.startLine == previous.endLine then "" else "\n") + last.text
  }

  lemma GlueNext(chunks: seq<Chunk>, c: Chunk)
    ensures Glue(chunks + [c]) ==
      if chunks == [] then c.text
      else Glue(chunks) + (if c.startLine == chunks[|chunks| - 1].endLine then "" else "\n") + c.text
  {
    assert (chunks + [c])[..|chunks|] == chunks;
  }

  lemma {:induction false} JoinNext(xs: seq<string>, ys: seq<string>)
    requires xs != [] && ys != []
    ensures Join(xs + ys) == Join(xs) + "\n" + Join(ys)
  {
    if |xs| == 1 {
      assert (xs + ys)[1..] == ys;
    } else {
      JoinNext(xs[1..], ys);
      assert (xs + ys)[1..] == xs[1..] + ys;
      assert xs[0] + "\n" + (Join(xs[1..]) + "\n" + Join(ys)) == xs[0] + "\n" + Join(xs[1..]) + "\n" + Join(ys);
    }
  }

  // Within the budget; a chunk of several lines is those lines joined, a chunk of one line is the
  // line or, when it is oversized, one of its slices.
  predicate InBudget(lines: seq<string>, c: Chunk)
  {
    && 1 <= c.startLine <= c.endLine <= |lines| && |c.text| <= CHUNK_FILE_MAX_CHUNK_CHARS
    && (if c.startLine < c.endLine then c.text == Join(lines[c.startLine - 1..c.endLine])
        else c.text in FixedSlices(lines[c.endLine - 1], CHUNK_FILE_MAX_CHUNK_CHARS))
  }

  // d starts on the line after c, or both are slices of the same single line.
  predicate Contiguous(c: Chunk, d: Chunk)
  {
    d.startLine == c.endLine + 1 || c.startLine == c.endLine == d.startLine == d.endLine
  }

  // The chunks cover the lines up to n: in budget, numbered, contiguous, and losing nothing.
  ghost predicate Tiles(lines: seq<string>, chunks: seq<Chunk>, n: nat)
  {
    && n <= |lines|
    && (forall k | 0 <= k < |chunks| :: chunks[k].index == k && InBudget(lines, chunks[k]))
    && (forall k | 0 < k < |chunks| :: Contiguous(chunks[k - 1], chunks[k]))
    && (if chunks == [] then n == 0 else chunks[0].startLine == 1 && chunks[|chunks| - 1].endLine == n)
    && Glue(chunks) == Join(lines[..n])
  }

  lemma Numbered(lines: seq<string>, chunks: seq<Chunk>, c: Chunk)
    requires forall k | 0 <= k < |chunks| :: chunks[k].index == k && InBudget(lines, chunks[k])
    requires forall k | 0 < k < |chunks| :: Contiguous(chunks[k - 1], chunks[k])
    requires c.index == |chunks| && InBudget(lines, c) && (chunks != [] ==> Contiguous(chunks[|chunks| - 1], c))
    ensures var out := chunks + [c];
      && (forall k | 0 <= k < |out| :: out[k].index == k && InBudget(lines, out[k]))
      && (forall k | 0 < k < |out| :: Contiguous(out[k - 1], out[k]))
  {
    hide InBudget;
  }

  lemma WindowGlue(lines: seq<string>, chunks: seq<Chunk>, s: nat, i: nat)
    requires s < i <= |lines| && Glue(chunks) == Join(lines[..s])
    requires if chunks == [] then s == 0 else s > 0 && chunks[|chunks| - 1].endLine == s
    ensures Glue(chunks + [Chunk(|chunks|, s + 1, i, Join(lines[s..i]))]) == Join(lines[..i])
  {
    hide Glue, Join;
    GlueNext(chunks, Chunk(|chunks|, s + 1, i, Join(lines[s..i])));
    if s == 0 {
      assert lines[0..i] == lines[..i];
    } else {
      assert lines[..s] + lines[s..i] == lines[..i];
      JoinNext(lines[..s], lines[s..i]);
    }
  }

  lemma LastEnds(lines: seq<string>, chunks: seq<Chunk>, n: nat)
    requires Tiles(lines, chunks, n) && chunks != []
    ensures n > 0
  {
    assert InBudget(lines, chunks[|chunks| - 1]);
  }

  lemma WindowInBudget(lines: seq<string>, index: nat, s: nat, i: nat)
    requires s < i <= |lines| && Cost(lines, s, i) <= CHUNK_FILE_MAX_CHUNK_CHARS
    ensures InBudget(lines, Chunk(index, s + 1, i, Join(lines[s..i])))
  {
    JoinLength(lines[s..i]);
    CostOfSlice(lines, s, i, 0, i - s);
    if i == s + 1 {
      assert lines[s..i] == [lines[s]] && Join([lines[s]]) == lines[s];
      assert FixedSlices(lines[s], CHUNK_FILE_MAX_CHUNK_CHARS) == [lines[s]];
    }
  }

  lemma NextTile(lines: seq<string>, chunks: seq<Chunk>, s: nat, c: Chunk)
    requires Tiles(lines, chunks, s) && c.index == |chunks| && InBudget(lines, c) && c.startLine == s + 1
      && c.endLine <= |lines|
    requires Glue(chunks + [c]) == Join(lines[..c.endLine])
    ensures Tiles(lines, chunks + [c], c.endLine)
  {
    hide InBudget, Join, Glue;
    Numbered(lines, chunks, c);
  }

  // A closed window of whole lines.
  lemma WindowTiles(lines: seq<string>, chunks: seq<Chunk>, s: nat, i: nat)
    requires Tiles(lines, chunks, s) && s < i <= |lines| && Cost(lines, s, i) <= CHUNK_FILE_MAX_CHUNK_CHARS
    ensures Tiles(lines, chunks + [Chunk(|chunks|, s + 1, i, Join(lines[s..i]))], i)
  {
    if chunks != [] { LastEnds(lines, chunks, s); }
    WindowInBudget(lines, |chunks|, s, i);
    hide InBudget, Join, Cost, Glue, Contiguous;
    WindowGlue(lines, chunks, s, i);
    hide Tiles;
    NextTile(lines, chunks, s, Chunk(|chunks|, s + 1, i, Join(lines[s..i])));
  }

  // The first j pieces of line i written after the chunks of the lines before it.
  ghost predicate PieceTiles(lines: seq<string>, chunks: seq<Chunk>, i: nat, pieces: seq<string>, j: nat)
  {
    && i < |lines| && j <= |pieces|
    && (forall k | 0 <= k < |chunks| :: chunks[k].index == k && InBudget(lines, chunks[k]))
    && (forall k | 0 < k < |chunks| :: Contiguous(chunks[k - 1], chunks[k]))
    && chunks != [] && j > 0 && chunks[0].startLine == 1
    && chunks[|chunks| - 1].startLine == chunks[|chunks| - 1].endLine == i + 1
    && Glue(chunks) == Headed(lines, i) + Concat(pieces[..j])
  }

  // The lines before line i, ended.
  function Headed(lines: seq<string>, i: nat): string
    requires i <= |lines|
  {
    if i == 0 then "" else Join(lines[..i]) + "\n"
  }

  lemma ConcatNext(pieces: seq<string>, j: nat)
    requires j < |pieces|
    ensures Concat(pieces[..j + 1]) == Concat(pieces[..j]) + pieces[j]
    ensures Concat(pieces[..0]) == ""
  {
    assert pieces[..j + 1] == pieces[..j] + [pieces[j]];
    Packing.ConcatSplit(pieces[..j], [pieces[j]]);
    Packing.ConcatOne(pieces[j]);
  }

  lemma PieceGlue(lines: seq<string>, chunks: seq<Chunk>, i: nat, pieces: seq<string>, j: nat)
    requires i < |lines| && j < |pieces|
    requires if j == 0 then Glue(chunks) == Join(lines[..i]) else Glue(chunks) == Headed(lines, i) + Concat(pieces[..j])
    requires if chunks == [] then i == j == 0 else chunks[|chunks| - 1].endLine == if j == 0 then i else i + 1
    requires j == 0 && chunks != [] ==> i > 0
    ensures Glue(chunks + [Chunk(|chunks|, i + 1, i + 1, pieces[j])]) == Headed(lines, i) + Concat(pieces[..j + 1])
  {
    hide Glue, Join, Concat;
    GlueNext(chunks, Chunk(|chunks|, i + 1, i + 1, pieces[j]));
    ConcatNext(pieces, j);
    if j > 0 { Regroup(Headed(lines, i), Concat(pieces[..j]), pieces[j]); }
  }

  lemma Regroup(a: string, b: string, c: string)
    ensures a + b + "" + c == a + (b + c)
  {
  }

  lemma NextContiguous(chunks: seq<Chunk>, c: Chunk, n: nat)
    requires chunks != [] ==> chunks[|chunks| - 1].endLine == n
    requires c.startLine == c.endLine
    requires chunks != [] ==> c.startLine == n + 1 || (c.startLine == n && chunks[|chunks| - 1].startLine == n)
    ensures chunks != [] ==> Contiguous(chunks[|chunks| - 1], c)
  {
  }

  lemma PieceAdded(lines: seq<string>, chunks: seq<Chunk>, i: nat, pieces: seq<string>, j: nat)
    requires if j == 0 then Tiles(lines, chunks, i) && i < |lines| else PieceTiles(lines, chunks, i, pieces, j)
    requires j < |pieces| && |pieces[j]| <= CHUNK_FILE_MAX_CHUNK_CHARS && i < |lines|
      && pieces == FixedSlices(lines[i], CHUNK_FILE_MAX_CHUNK_CHARS)
    ensures PieceTiles(lines, chunks + [Chunk(|chunks|, i + 1, i + 1, pieces[j])], i, pieces, j + 1)
  {
    hide FixedSlices, Join, Glue, Concat, Contiguous;
    var c := Chunk(|chunks|, i + 1, i + 1, pieces[j]);
    assert InBudget(lines, c);
    hide InBudget;
    if j == 0 && chunks != [] { LastEnds(lines, chunks, i); }
    NextContiguous(chunks, c, if j == 0 then i else i + 1);
    Numbered(lines, chunks, c);
    PieceGlue(lines, chunks, i, pieces, j);
  }

  lemma HeadedLine(lines: seq<string>, i: nat)
    requires i < |lines|
    ensures Headed(lines, i) + lines[i] == Join(lines[..i + 1])
  {
    assert lines[..i + 1] == lines[..i] + [lines[i]];
    assert Join([lines[i]]) == lines[i];
    if i > 0 { JoinNext(lines[..i], [lines[i]]); }
  }

  lemma AllPieces(lines: seq<string>, chunks: seq<Chunk>, i: nat, pieces: seq<string>)
    requires PieceTiles(lines, chunks, i, pieces, |pieces|) && Concat(pieces) == lines[i]
    ensures Tiles(lines, chunks, i + 1)
  {
    hide InBudget, Glue, Join, Concat, Headed, Contiguous;
    assert pieces[..|pieces|] == pieces;
    HeadedLine(lines, i);
  }

  // Closes the current chunk, if it holds any line.
  method Flush(chunks: seq<Chunk>, currentLines: seq<string>, startLine: nat, endLine: nat,
               ghost lines: seq<string>) returns (out: seq<Chunk>)
    requires 0 < startLine <= endLine + 1 <= |lines| + 1 && Tiles(lines, chunks, startLine - 1)
    requires currentLines == lines[startLine - 1..endLine]
      && Cost(lines, startLine - 1, endLine) <= CHUNK_FILE_MAX_CHUNK_CHARS
    ensures Tiles(lines, out, endLine)
  {
    hide Tiles, Join, Cost;
    if currentLines == [] { return chunks; }
    WindowTiles(lines, chunks, startLine - 1, endLine);
    out := chunks + [Chunk(|chunks|, startLine, endLine, Join(currentLines))];
  }

  method ChunkFile(text: string) returns (chunks: seq<Chunk>)
    ensures Tiles(SplitLines(text, false), chunks, |SplitLines(text, false)|)
  {
    hide Tiles, PieceTiles, SplitLines, Concat;
    var lines := SplitLines(text, false);
    chunks := [];
    var currentLines, currentChars, currentStartLine: nat := [], 0, 1;
    var i := 0;
    NothingTiled(lines);
    while i < |lines|
      invariant i <= |lines| && 1 <= currentStartLine <= i + 1
      invariant currentLines == lines[currentStartLine - 1..i] && currentChars == Cost(lines, currentStartLine - 1, i)
      invariant currentChars <= CHUNK_FILE_MAX_CHUNK_CHARS && Tiles(lines, chunks, currentStartLine - 1)
    {
      var line := lines[i];
      var lineChars := |line| + 1;
      if lineChars > CHUNK_FILE_MAX_CHUNK_CHARS {
        chunks := Flush(chunks, currentLines, currentStartLine, i, lines);
        var pieces := FixedSlices(line, CHUNK_FILE_MAX_CHUNK_CHARS);
        FixedSlicesTile(line, CHUNK_FILE_MAX_CHUNK_CHARS);
        for j := 0 to |pieces|
          invariant if j == 0 then Tiles(lines, chunks, i) else PieceTiles(lines, chunks, i, pieces, j)
        {
          PieceAdded(lines, chunks, i, pieces, j);
          chunks := chunks + [Chunk(|chunks|, i + 1, i + 1, pieces[j])];
        }
        AllPieces(lines, chunks, i, pieces);
        currentLines, currentChars, currentStartLine := [], 0, i + 2;
      } else {
        if currentLines != [] && currentChars + lineChars > CHUNK_FILE_MAX_CHUNK_CHARS {
          chunks := Flush(chunks, currentLines, currentStartLine, i, lines);
          currentLines, currentChars, currentStartLine := [], 0, i + 1;
        }
        WindowGrows(lines, currentStartLine - 1, i);
        currentLines, currentChars := currentLines + [line], currentChars + lineChars;
      }
      i := i + 1;
    }
    chunks := Flush(chunks, currentLines, currentStartLine, i, lines);
  }

  lemma NothingTiled(lines: seq<string>)
    ensures Tiles(lines, [], 0)
  {
    assert lines[..0] == [];
  }
}
