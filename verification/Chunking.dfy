// Splitting a text into overlapping retrieval chunks.
module Chunking {
  import opened TextLines

  const CHARS_PER_TOKEN_ESTIMATE := 4
  const TARGET_CHUNK_CHARS: nat := 400 * CHARS_PER_TOKEN_ESTIMATE
  const OVERLAP_CHARS: nat := 50 * CHARS_PER_TOKEN_ESTIMATE

  // Lines are numbered from 1; the range is inclusive.
  datatype Chunk = Chunk(index: nat, startLine: nat, endLine: nat, text: string)

  predicate Oversized(line: string)
  {
    |line| + 1 > TARGET_CHUNK_CHARS
  }

  // ---------- one oversized line ----------

  // Overlapping slices of a line, from the given position on.
  function Slices(line: string, from: nat, maxChars: nat, overlapChars: nat): (pieces: seq<string>)
    requires maxChars > overlapChars
    decreases |line| - from
  {
    if from >= |line| then []
    else [line[from..if from + maxChars < |line| then from + maxChars else |line|]]
         + Slices(line, from + (maxChars - overlapChars), maxChars, overlapChars)
  }

  // Any stretch no longer than the overlap lies whole in one slice.
  lemma {:induction false} SliceHolds(line: string, from: nat, maxChars: nat, overlapChars: nat, u: nat, v: nat)
    returns (j: nat)
    requires maxChars > overlapChars && from <= u < v <= |line| && v - u <= overlapChars
    ensures j < |Slices(line, from, maxChars, overlapChars)|
    ensures Within(line[u..v], Slices(line, from, maxChars, overlapChars)[j])
    decreases |line| - from
  {
    var e := if from + maxChars < |line| then from + maxChars else |line|;
    if v <= e {
      j := 0;
      assert line[from..e][u - from..v - from] == line[u..v];
      assert StandsAt(line[u..v], line[from..e], u - from);
    } else {
      var i := SliceHolds(line, from + (maxChars - overlapChars), maxChars, overlapChars, u, v);
      j := i + 1;
    }
  }

  lemma {:induction false} SlicesBounded(line: string, from: nat, maxChars: nat, overlapChars: nat)
    requires maxChars > overlapChars
    ensures forall j | 0 <= j < |Slices(line, from, maxChars, overlapChars)| ::
      Slices(line, from, maxChars, overlapChars)[j] != "" && |Slices(line, from, maxChars, overlapChars)[j]| <= maxChars
    decreases |line| - from
  {
    if from < |line| { SlicesBounded(line, from + (maxChars - overlapChars), maxChars, overlapChars); }
  }

  // An empty line gives one empty piece.
  method SplitOversizedLine(line: string, maxChars: nat, overlapChars: nat) returns (pieces: seq<string>)
    requires maxChars > overlapChars
    ensures pieces == if line == "" then [""] else Slices(line, 0, maxChars, overlapChars)
  {
    if line == "" { return [""]; }
    pieces := [];
    var i := 0;
    while i < |line|
      invariant Slices(line, 0, maxChars, overlapChars) == pieces + Slices(line, i, maxChars, overlapChars)
      decreases |line| - i
    {
      pieces := pieces + [line[i..if i + maxChars < |line| then i + maxChars else |line|]];
      i := i + (maxChars - overlapChars);
    }
  }

  // ---------- the seed of the next chunk ----------

  // The longest run of trailing lines worth at most the overlap.
  method OverlapTail(linesSoFar: seq<string>) returns (tail: seq<string>)
    ensures |tail| <= |linesSoFar| && tail == linesSoFar[|linesSoFar| - |tail|..]
    ensures Cost(linesSoFar, |linesSoFar| - |tail|, |linesSoFar|) <= OVERLAP_CHARS
    ensures |tail| < |linesSoFar| ==> Cost(linesSoFar, |linesSoFar| - |tail| - 1, |linesSoFar|) > OVERLAP_CHARS
  {
    tail := [];
    var tailChars := 0;
    var n: nat := |linesSoFar|;
    var i: nat := n;
    while i > 0
      invariant i <= n && tail == linesSoFar[i..] && tailChars == Cost(linesSoFar, i, n) <= OVERLAP_CHARS
    {
      var lineChars := |linesSoFar[i - 1]| + 1;
      CostSplit(linesSoFar, i - 1, i, n);
      assert Cost(linesSoFar, i - 1, i - 1) == 0;
      if tailChars + lineChars > OVERLAP_CHARS { break; }
      tail := [linesSoFar[i - 1]] + tail;
      tailChars := tailChars + lineChars;
      i := i - 1;
    }
  }

  // ---------- what a list of chunks promises ----------

  predicate NoOversized(lines: seq<string>, p: nat, q: nat)
    requires p <= q <= |lines|
  {
    forall k | p <= k < q :: !Oversized(lines[k])
  }

  // A chunk of whole lines, none of them oversized.
  predicate WholeChunk(lines: seq<string>, c: Chunk)
  {
    && 1 <= c.startLine <= c.endLine <= |lines|
    && NoOversized(lines, c.startLine - 1, c.endLine)
    && c.text == Join(lines[c.startLine - 1..c.endLine])
    && Cost(lines, c.startLine - 1, c.endLine) <= TARGET_CHUNK_CHARS + OVERLAP_CHARS
  }

  // A slice of one oversized line.
  predicate SliceChunk(lines: seq<string>, c: Chunk)
  {
    && 1 <= c.startLine == c.endLine <= |lines| && Oversized(lines[c.endLine - 1])
    && c.text in Slices(lines[c.endLine - 1], 0, TARGET_CHUNK_CHARS, OVERLAP_CHARS)
  }

  // d follows c: no line is left out between them, and d adds a line unless both are slices of one.
  predicate Follows(lines: seq<string>, c: Chunk, d: Chunk)
  {
    && d.startLine <= c.endLine + 1
    && (c.endLine < d.endLine || (c.endLine == d.endLine && SliceChunk(lines, c) && SliceChunk(lines, d)))
  }

  ghost predicate InOrder(lines: seq<string>, chunks: seq<Chunk>)
  {
    && (forall k | 0 <= k < |chunks| ::
          chunks[k].index == k && (WholeChunk(lines, chunks[k]) || SliceChunk(lines, chunks[k])))
    && (forall k | 0 < k < |chunks| :: Follows(lines, chunks[k - 1], chunks[k]))
    && (chunks != [] ==> chunks[0].startLine == 1)
  }

  // The chunks from b on are exactly the slices of the given line, and no other chunk is.
  predicate SlicedAt(lines: seq<string>, chunks: seq<Chunk>, line: nat, b: nat)
    requires line < |lines|
  {
    var pieces := Slices(lines[line], 0, TARGET_CHUNK_CHARS, OVERLAP_CHARS);
    && b + |pieces| <= |chunks|
    && (forall j | 0 <= j < |pieces| :: chunks[b + j] == Chunk(b + j, line + 1, line + 1, pieces[j]))
    && (b > 0 ==> chunks[b - 1].endLine < line + 1)
    && (b + |pieces| < |chunks| ==> chunks[b + |pieces|].startLine > line + 1)
  }

  // Some chunk holds the lines p up to q whole.
  ghost predicate Held(chunks: seq<Chunk>, p: nat, q: nat)
  {
    exists k :: 0 <= k < |chunks| && chunks[k].startLine <= p + 1 && q <= chunks[k].endLine
  }

  // A run of lines the overlap guarantee speaks of.
  predicate ShortRun(lines: seq<string>, p: nat, q: nat)
  {
    p < q <= |lines| && NoOversized(lines, p, q) && (q == p + 1 || Cost(lines, p, q) <= OVERLAP_CHARS)
  }

  // The short runs of the first i lines are held by a chunk, or start in the open window from w on.
  ghost predicate RunsHeld(lines: seq<string>, chunks: seq<Chunk>, w: nat, i: nat)
  {
    forall p: nat, q: nat :: ShortRun(lines, p, q) && q <= i && p < w ==> Held(chunks, p, q)
  }

  ghost predicate LinesSliced(lines: seq<string>, chunks: seq<Chunk>, i: nat)
  {
    forall n | 0 <= n < i && n < |lines| && Oversized(lines[n]) :: exists b: nat :: SlicedAt(lines, chunks, n, b)
  }

  lemma HeldKept(chunks: seq<Chunk>, more: seq<Chunk>, p: nat, q: nat)
    requires Held(chunks, p, q)
    ensures Held(chunks + more, p, q)
  {
    var k :| 0 <= k < |chunks| && chunks[k].startLine <= p + 1 && q <= chunks[k].endLine;
    assert (chunks + more)[k] == chunks[k];
  }

  lemma SlicesKept(lines: seq<string>, chunks: seq<Chunk>, more: seq<Chunk>, i: nat)
    requires LinesSliced(lines, chunks, i)
    requires more != [] ==> forall n | 0 <= n < i && n < |lines| && Oversized(lines[n]) :: n + 1 < more[0].startLine
    ensures LinesSliced(lines, chunks + more, i)
  {
    forall n | 0 <= n < i && n < |lines| && Oversized(lines[n])
      ensures exists b: nat :: SlicedAt(lines, chunks + more, n, b)
    {
      var b: nat :| SlicedAt(lines, chunks, n, b);
      assert SlicedAt(lines, chunks + more, n, b);
    }
  }

  // The chunk of the window lines[w..i].
  function WindowChunk(lines: seq<string>, chunks: seq<Chunk>, w: nat, i: nat): Chunk
    requires w <= i <= |lines|
  {
    Chunk(|chunks|, w + 1, i, Join(lines[w..i]))
  }

  // The state of the scan before line i, with the window open from line w on.
  ghost predicate Scanned(lines: seq<string>, chunks: seq<Chunk>, w: nat, i: nat)
  {
    && w <= i <= |lines|
    && InOrder(lines, chunks)
    && NoOversized(lines, w, i) && Cost(lines, w, i) <= TARGET_CHUNK_CHARS + OVERLAP_CHARS
    && (chunks == [] ==> w == 0)
    && (chunks != [] ==> w <= chunks[|chunks| - 1].endLine <= i && (w < i ==> chunks[|chunks| - 1].endLine < i))
    && (w > 0 ==> Oversized(lines[w - 1]) || Cost(lines, w - 1, i) > OVERLAP_CHARS)
    && RunsHeld(lines, chunks, w, i)
    && LinesSliced(lines, chunks, i)
  }

  lemma OrderExtended(lines: seq<string>, chunks: seq<Chunk>, c: Chunk)
    requires InOrder(lines, chunks) && c.index == |chunks| && (WholeChunk(lines, c) || SliceChunk(lines, c))
    requires if chunks == [] then c.startLine == 1 else Follows(lines, chunks[|chunks| - 1], c)
    ensures InOrder(lines, chunks + [c])
  {
    hide WholeChunk, SliceChunk, Follows;
    var out := chunks + [c];
    forall k | 0 < k < |out|
      ensures Follows(lines, out[k - 1], out[k])
    {
      if k < |chunks| { assert Follows(lines, chunks[k - 1], chunks[k]); }
    }
  }

  lemma RunsExtended(lines: seq<string>, chunks: seq<Chunk>, w: nat, i: nat, c: Chunk)
    requires RunsHeld(lines, chunks, w, i) && c.startLine == w + 1 && c.endLine == i
    ensures RunsHeld(lines, chunks + [c], i, i)
  {
    hide ShortRun;
    var out := chunks + [c];
    forall p: nat, q: nat | ShortRun(lines, p, q) && q <= i && p < i
      ensures Held(out, p, q)
    {
      if p < w { HeldKept(chunks, [c], p, q);
      } else { assert out[|chunks|].startLine <= p + 1 && q <= out[|chunks|].endLine; }
    }
  }

  // The state right after a chunk was closed before line i.
  ghost predicate Flushed(lines: seq<string>, chunks: seq<Chunk>, i: nat)
  {
    && i <= |lines| && InOrder(lines, chunks) && RunsHeld(lines, chunks, i, i) && LinesSliced(lines, chunks, i)
    && (if chunks == [] then i == 0 else chunks[|chunks| - 1].endLine == i)
  }

  // Closing a non-empty window.
  lemma Closed(lines: seq<string>, chunks: seq<Chunk>, w: nat, i: nat)
    requires Scanned(lines, chunks, w, i) && w < i
    ensures Flushed(lines, chunks + [WindowChunk(lines, chunks, w, i)], i)
  {
    hide Join, Slices, InOrder, RunsHeld, LinesSliced, SlicedAt;
    var c := WindowChunk(lines, chunks, w, i);
    assert WholeChunk(lines, c);
    hide Cost, NoOversized;
    if chunks == [] {} else { assert Follows(lines, chunks[|chunks| - 1], c); }
    OrderExtended(lines, chunks, c);
    RunsExtended(lines, chunks, w, i, c);
    SlicedBefore(lines, w, i);
    SlicesKept(lines, chunks, [c], i);
  }

  lemma EmptyWindow(lines: seq<string>, chunks: seq<Chunk>, i: nat)
    requires Scanned(lines, chunks, i, i)
    ensures Flushed(lines, chunks, i)
  {
    hide InOrder, RunsHeld, LinesSliced;
  }

  // No short run reaches from before the window across it.
  lemma NoRunAcross(lines: seq<string>, w: nat, i: nat, p: nat)
    requires p < w <= i < |lines| && ShortRun(lines, p, i + 1)
    ensures !Oversized(lines[w - 1]) && Cost(lines, w - 1, i) <= OVERLAP_CHARS
  {
    CostSplit(lines, p, w - 1, i + 1);
    CostSplit(lines, w - 1, i, i + 1);
  }

  lemma RunsGrow(lines: seq<string>, chunks: seq<Chunk>, w: nat, i: nat)
    requires w <= i < |lines| && RunsHeld(lines, chunks, w, i)
    requires w > 0 ==> Oversized(lines[w - 1]) || Cost(lines, w - 1, i) > OVERLAP_CHARS
    ensures RunsHeld(lines, chunks, w, i + 1)
  {
    hide Held, ShortRun, Oversized, Cost;
    forall p: nat, q: nat | ShortRun(lines, p, q) && q <= i + 1 && p < w
      ensures Held(chunks, p, q)
    {
      if q == i + 1 { NoRunAcross(lines, w, i, p); }
    }
  }

  // Line i joins the window from w on.
  lemma Extended(lines: seq<string>, chunks: seq<Chunk>, w: nat, i: nat)
    requires w <= i < |lines| && InOrder(lines, chunks) && LinesSliced(lines, chunks, i)
    requires RunsHeld(lines, chunks, w, i)
    requires if chunks == [] then w == 0 else w <= chunks[|chunks| - 1].endLine <= i
    requires NoOversized(lines, w, i) && !Oversized(lines[i])
      && Cost(lines, w, i + 1) <= TARGET_CHUNK_CHARS + OVERLAP_CHARS
    requires w > 0 ==> Oversized(lines[w - 1]) || Cost(lines, w - 1, i) > OVERLAP_CHARS
    ensures Scanned(lines, chunks, w, i + 1)
  {
    hide InOrder, SlicedAt, RunsHeld;
    RunsGrow(lines, chunks, w, i);
    assert w > 0 ==> Cost(lines, w - 1, i) <= Cost(lines, w - 1, i + 1);
  }

  // The slices of line i.
  function Pieces(chunks: seq<Chunk>, line: string, i: nat): (pieces: seq<Chunk>)
  {
    var texts := Slices(line, 0, TARGET_CHUNK_CHARS, OVERLAP_CHARS);
    seq(|texts|, j requires 0 <= j < |texts| => Chunk(|chunks| + j, i + 1, i + 1, texts[j]))
  }

  lemma {:induction false} PiecesInOrder(lines: seq<string>, chunks: seq<Chunk>, i: nat, j: nat)
    requires Flushed(lines, chunks, i) && i < |lines| && Oversized(lines[i]) && j <= |Pieces(chunks, lines[i], i)|
    ensures InOrder(lines, chunks + Pieces(chunks, lines[i], i)[..j])
  {
    hide InOrder, RunsHeld, LinesSliced, WholeChunk, Slices;
    var pieces := Pieces(chunks, lines[i], i);
    if j == 0 {
      assert chunks + pieces[..0] == chunks;
    } else {
      PiecesInOrder(lines, chunks, i, j - 1);
      assert pieces[..j] == pieces[..j - 1] + [pieces[j - 1]];
      assert chunks + pieces[..j] == chunks + pieces[..j - 1] + [pieces[j - 1]];
      assert SliceChunk(lines, pieces[j - 1]);
      if j > 1 { assert SliceChunk(lines, pieces[j - 2]); }
      OrderExtended(lines, chunks + pieces[..j - 1], pieces[j - 1]);
    }
  }

  // After an oversized line the window starts anew.
  lemma PiecesEmitted(lines: seq<string>, chunks: seq<Chunk>, i: nat)
    requires Flushed(lines, chunks, i) && i < |lines| && Oversized(lines[i])
    ensures Scanned(lines, chunks + Pieces(chunks, lines[i], i), i + 1, i + 1)
  {
    var pieces := Pieces(chunks, lines[i], i);
    assert pieces != [];
    PiecesInOrder(lines, chunks, i, |pieces|);
    assert pieces[..|pieces|] == pieces;
    SlicesKept(lines, chunks, pieces, i);
    hide InOrder, Slices, Follows;
    assert SlicedAt(lines, chunks + pieces, i, |chunks|);
    forall p: nat, q: nat | ShortRun(lines, p, q) && q <= i + 1 && p < i + 1
      ensures Held(chunks + pieces, p, q)
    {
      assert q <= i;
      HeldKept(chunks, pieces, p, q);
    }
  }

  // The overlap kept from the window just closed.
  lemma TailKept(lines: seq<string>, w: nat, i: nat, k: nat)
    requires w <= i <= |lines| && k <= i - w
    requires Cost(lines[w..i], |lines[w..i]| - k, |lines[w..i]|) <= OVERLAP_CHARS
    requires k < i - w ==> Cost(lines[w..i], |lines[w..i]| - k - 1, |lines[w..i]|) > OVERLAP_CHARS
    requires w > 0 ==> Oversized(lines[w - 1]) || Cost(lines, w - 1, i) > OVERLAP_CHARS
    ensures Cost(lines, i - k, i) <= OVERLAP_CHARS
    ensures i - k > 0 ==> Oversized(lines[i - k - 1]) || Cost(lines, i - k - 1, i) > OVERLAP_CHARS
  {
    CostOfSlice(lines, w, i, i - w - k, i - w);
    if k < i - w { CostOfSlice(lines, w, i, i - w - k - 1, i - w); }
  }

  // The next window opens with the overlap and line i.
  lemma NextWindow(lines: seq<string>, chunks: seq<Chunk>, w: nat, i: nat)
    requires Flushed(lines, chunks, i) && w <= i < |lines| && chunks != []
    requires NoOversized(lines, w, i) && !Oversized(lines[i]) && Cost(lines, w, i) <= OVERLAP_CHARS
    requires w > 0 ==> Oversized(lines[w - 1]) || Cost(lines, w - 1, i) > OVERLAP_CHARS
    ensures Scanned(lines, chunks, w, i + 1)
  {
    hide InOrder, LinesSliced, ShortRun, Held;
    assert RunsHeld(lines, chunks, w, i);
    Extended(lines, chunks, w, i);
  }

  // The open window takes line i, which still fits.
  lemma SameWindow(lines: seq<string>, chunks: seq<Chunk>, w: nat, i: nat)
    requires Scanned(lines, chunks, w, i) && i < |lines| && !Oversized(lines[i])
    requires w == i || Cost(lines, w, i) + |lines[i]| + 1 <= TARGET_CHUNK_CHARS
    ensures Scanned(lines, chunks, w, i + 1)
  {
    hide InOrder, LinesSliced, RunsHeld;
    Extended(lines, chunks, w, i);
  }

  // The window closed before line i was too full for it, so its overlap leaves something out.
  lemma FullWindow(lines: seq<string>, chunks: seq<Chunk>, w: nat, i: nat, k: nat)
    requires Scanned(lines, chunks, w, i) && i < |lines| && k <= i - w
    requires Cost(lines[w..i], |lines[w..i]| - k, |lines[w..i]|) <= OVERLAP_CHARS
    requires k < i - w ==> Cost(lines[w..i], |lines[w..i]| - k - 1, |lines[w..i]|) > OVERLAP_CHARS
    requires w < i && Cost(lines, w, i) + |lines[i]| + 1 > TARGET_CHUNK_CHARS && !Oversized(lines[i])
    ensures Cost(lines, i - k, i) <= OVERLAP_CHARS && NoOversized(lines, i - k, i)
    ensures i - k > 0 ==> Oversized(lines[i - k - 1]) || Cost(lines, i - k - 1, i) > OVERLAP_CHARS
  {
    hide InOrder, LinesSliced, RunsHeld;
    TailKept(lines, w, i, k);
  }

  // Every promise about the finished chunks of a text's lines.
  ghost predicate Complete(lines: seq<string>, chunks: seq<Chunk>)
  {
    && InOrder(lines, chunks)
    && (if lines == [] then chunks == [] else chunks != [] && chunks[|chunks| - 1].endLine == |lines|)
    && (forall p: nat, q: nat :: ShortRun(lines, p, q) ==> Held(chunks, p, q))
    && (forall n | 0 <= n < |lines| && Oversized(lines[n]) :: exists b: nat :: SlicedAt(lines, chunks, n, b))
  }

  lemma AllScanned(lines: seq<string>, chunks: seq<Chunk>)
    requires Flushed(lines, chunks, |lines|)
    ensures Complete(lines, chunks)
  {
    hide InOrder, ShortRun, Held, SlicedAt;
    forall p: nat, q: nat | ShortRun(lines, p, q)
      ensures Held(chunks, p, q)
    {
      ShortWithin(lines, p, q);
    }
    forall n | 0 <= n < |lines| && Oversized(lines[n])
      ensures exists b: nat :: SlicedAt(lines, chunks, n, b)
    {
    }
    if lines == [] && chunks != [] { OrderPositive(lines, chunks); }
  }

  lemma ShortWithin(lines: seq<string>, p: nat, q: nat)
    requires ShortRun(lines, p, q)
    ensures p < q <= |lines|
  {
  }

  lemma OrderPositive(lines: seq<string>, chunks: seq<Chunk>)
    requires InOrder(lines, chunks) && chunks != []
    ensures lines != []
  {
    assert WholeChunk(lines, chunks[0]) || SliceChunk(lines, chunks[0]);
  }

  lemma TailIs(lines: seq<string>, w: nat, i: nat, k: nat)
    requires w <= i <= |lines| && k <= i - w
    requires Cost(lines[w..i], |lines[w..i]| - k, |lines[w..i]|) <= OVERLAP_CHARS
    requires k < i - w ==> Cost(lines[w..i], |lines[w..i]| - k - 1, |lines[w..i]|) > OVERLAP_CHARS
    ensures TailStart(lines, w, i, i) == i - k
  {
    CostOfSlice(lines, w, i, i - w - k, i - w);
    if k < i - w { CostOfSlice(lines, w, i, i - w - k - 1, i - w); }
    TailFound(lines, w, i, i, i - k);
  }

  lemma EmptyCost(lines: seq<string>)
    ensures forall k | 0 <= k <= |lines| :: Cost(lines, k, k) == 0 && lines[k..k] == []
  {
  }

  lemma WindowGrows(lines: seq<string>, w: nat, i: nat)
    requires w <= i < |lines|
    ensures lines[w..i] + [lines[i]] == lines[w..i + 1] && Cost(lines, w, i + 1) == Cost(lines, w, i) + |lines[i]| + 1
  {
  }

  lemma TailWindow(lines: seq<string>, w: nat, i: nat, k: nat)
    requires w <= i <= |lines| && k <= i - w
    ensures var tail := lines[w..i][|lines[w..i]| - k..];
      tail == lines[i - k..i] && Cost(tail, 0, |tail|) == Cost(lines, i - k, i)
  {
    assert lines[w..i][|lines[w..i]| - k..] == lines[i - k..i];
    CostOfSlice(lines, i - k, i, 0, k);
  }

  lemma NothingScanned(lines: seq<string>)
    ensures Scanned(lines, [], 0, 0)
  {
  }

  // ---------- the scan as a function ----------

  // The chunks after closing the window from line w on, if it holds any line.
  function Flush(lines: seq<string>, chunks: seq<Chunk>, w: nat, i: nat): seq<Chunk>
    requires w <= i <= |lines|
  {
    if w == i then chunks else chunks + [WindowChunk(lines, chunks, w, i)]
  }

  // The first of the trailing lines before i, none before w, that together cost at most the overlap.
  function TailStart(lines: seq<string>, w: nat, s: nat, i: nat): (t: nat)
    requires w <= s <= i <= |lines|
    ensures w <= t <= s
    decreases s
  {
    if s > w && Cost(lines, s - 1, i) <= OVERLAP_CHARS then TailStart(lines, w, s - 1, i) else s
  }

  // The rest of the scan from line i, with the window open from line w on.
  function ScanFrom(lines: seq<string>, chunks: seq<Chunk>, w: nat, i: nat): seq<Chunk>
    requires w <= i <= |lines|
    decreases |lines| - i
  {
    if i == |lines| then Flush(lines, chunks, w, i)
    else if Oversized(lines[i]) then
      var closed := Flush(lines, chunks, w, i);
      ScanFrom(lines, closed + Pieces(closed, lines[i], i), i + 1, i + 1)
    else if w < i && Cost(lines, w, i) + |lines[i]| + 1 > TARGET_CHUNK_CHARS then
      ScanFrom(lines, Flush(lines, chunks, w, i), TailStart(lines, w, i, i), i + 1)
    else
      ScanFrom(lines, chunks, w, i + 1)
  }

  lemma ScanOversized(lines: seq<string>, chunks: seq<Chunk>, w: nat, i: nat)
    requires w <= i < |lines| && Oversized(lines[i])
    ensures var closed := Flush(lines, chunks, w, i);
      ScanFrom(lines, chunks, w, i) == ScanFrom(lines, closed + Pieces(closed, lines[i], i), i + 1, i + 1)
  {
  }

  lemma ScanFull(lines: seq<string>, chunks: seq<Chunk>, w: nat, i: nat)
    requires w < i < |lines| && !Oversized(lines[i]) && Cost(lines, w, i) + |lines[i]| + 1 > TARGET_CHUNK_CHARS
    ensures ScanFrom(lines, chunks, w, i) ==
        ScanFrom(lines, Flush(lines, chunks, w, i), TailStart(lines, w, i, i), i + 1)
  {
  }

  lemma ScanFits(lines: seq<string>, chunks: seq<Chunk>, w: nat, i: nat)
    requires w <= i < |lines| && !Oversized(lines[i])
    requires w == i || Cost(lines, w, i) + |lines[i]| + 1 <= TARGET_CHUNK_CHARS
    ensures ScanFrom(lines, chunks, w, i) == ScanFrom(lines, chunks, w, i + 1)
  {
  }

  lemma ScanEnd(lines: seq<string>, chunks: seq<Chunk>, w: nat)
    requires w <= |lines|
    ensures ScanFrom(lines, chunks, w, |lines|) == Flush(lines, chunks, w, |lines|)
  {
  }

  // All chunks of a text.
  function Chunks(text: string): seq<Chunk>
  {
    ScanFrom(SplitLines(text, false), [], 0, 0)
  }

  // A tail as long as the overlap allows starts where TailStart says.
  lemma {:induction false} TailFound(lines: seq<string>, w: nat, s: nat, i: nat, t: nat)
    requires w <= t <= s <= i <= |lines| && Cost(lines, t, i) <= OVERLAP_CHARS
    requires t > w ==> Cost(lines, t - 1, i) > OVERLAP_CHARS
    ensures TailStart(lines, w, s, i) == t
    decreases s
  {
    if s > t {
      CostSplit(lines, t, s - 1, i);
      TailFound(lines, w, s - 1, i, t);
    }
  }

  // Closing whatever window is open before line i.
  ghost predicate Window(lines: seq<string>, currentLines: seq<string>, w: nat, i: nat)
  {
    w <= i <= |lines| && currentLines == lines[w..i]
  }

  method BuildChunk(chunks: seq<Chunk>, currentLines: seq<string>, startLine: nat, endLine: nat,
                    ghost lines: seq<string>) returns (out: seq<Chunk>)
    requires startLine > 0 && Window(lines, currentLines, startLine - 1, endLine)
    requires Scanned(lines, chunks, startLine - 1, endLine)
    ensures Flushed(lines, out, endLine) && out == Flush(lines, chunks, startLine - 1, endLine)
    ensures currentLines != [] ==> out != []
  {
    hide Scanned, Flushed, Join;
    if currentLines == [] {
      EmptyWindow(lines, chunks, endLine);
      return chunks;
    }
    Closed(lines, chunks, startLine - 1, endLine);
    out := chunks + [Chunk(|chunks|, startLine, endLine, Join(currentLines))];
  }

  // An oversized line closes the window and is emitted slice by slice.
  method EmitOversized(chunks: seq<Chunk>, currentLines: seq<string>, startLine: nat, i: nat,
                       lines: seq<string>) returns (out: seq<Chunk>)
    requires startLine > 0 && Window(lines, currentLines, startLine - 1, i) && Scanned(lines, chunks, startLine - 1, i)
    requires i < |lines| && Oversized(lines[i])
    ensures Scanned(lines, out, i + 1, i + 1)
      && ScanFrom(lines, out, i + 1, i + 1) == ScanFrom(lines, chunks, startLine - 1, i)
  {
    hide Flushed, Scanned, Slices, ScanFrom, Flush;
    var closed := BuildChunk(chunks, currentLines, startLine, i, lines);
    var pieces := SplitOversizedLine(lines[i], TARGET_CHUNK_CHARS, OVERLAP_CHARS);
    PiecesEmitted(lines, closed, i);
    ScanOversized(lines, chunks, startLine - 1, i);
    out := closed + seq(|pieces|, j requires 0 <= j < |pieces| => Chunk(|closed| + j, i + 1, i + 1, pieces[j]));
  }

  // A full window is closed; its overlap seeds the next one.
  method CloseFull(chunks: seq<Chunk>, currentLines: seq<string>, startLine: nat, i: nat, lines: seq<string>)
    returns (out: seq<Chunk>, tail: seq<string>, tailChars: nat)
    requires startLine > 0 && Window(lines, currentLines, startLine - 1, i) && Scanned(lines, chunks, startLine - 1, i)
    requires startLine - 1 < i < |lines| && !Oversized(lines[i])
      && Cost(lines, startLine - 1, i) + |lines[i]| + 1 > TARGET_CHUNK_CHARS
    ensures |tail| <= i && Window(lines, tail, i - |tail|, i) && tailChars == Cost(lines, i - |tail|, i)
    ensures Scanned(lines, out, i - |tail|, i + 1)
      && ScanFrom(lines, out, i - |tail|, i + 1) == ScanFrom(lines, chunks, startLine - 1, i)
  {
    hide *;
    out := BuildChunk(chunks, currentLines, startLine, i, lines);
    tail := OverlapTail(currentLines);
    WindowIs(lines, currentLines, startLine - 1, i);
    TailScanned(lines, chunks, startLine - 1, i, out, tail);
    tailChars := Total(tail);
  }

  lemma WindowIs(lines: seq<string>, currentLines: seq<string>, w: nat, i: nat)
    requires Window(lines, currentLines, w, i)
    ensures w <= i <= |lines| && currentLines == lines[w..i]
  {
  }

  // The longest tail of a full window that the overlap allows is the window the scan goes on with.
  lemma TailScanned(lines: seq<string>, chunks: seq<Chunk>, w: nat, i: nat, out: seq<Chunk>, tail: seq<string>)
    requires w < i < |lines| && Scanned(lines, chunks, w, i) && !Oversized(lines[i])
      && Cost(lines, w, i) + |lines[i]| + 1 > TARGET_CHUNK_CHARS
    requires Flushed(lines, out, i) && out == Flush(lines, chunks, w, i) && out != []
    requires var window := lines[w..i];
      var n := |window|;
      && |tail| <= n && tail == window[n - |tail|..] && Cost(window, n - |tail|, n) <= OVERLAP_CHARS
      && (|tail| < n ==> Cost(window, n - |tail| - 1, n) > OVERLAP_CHARS)
    ensures Window(lines, tail, i - |tail|, i) && Cost(tail, 0, |tail|) == Cost(lines, i - |tail|, i)
    ensures Scanned(lines, out, i - |tail|, i + 1)
      && ScanFrom(lines, out, i - |tail|, i + 1) == ScanFrom(lines, chunks, w, i)
  {
    hide Flushed, Scanned, ScanFrom, Flush, TailStart, Cost;
    ScanFull(lines, chunks, w, i);
    FullWindow(lines, chunks, w, i, |tail|);
    TailIs(lines, w, i, |tail|);
    TailWindow(lines, w, i, |tail|);
    NextWindow(lines, out, i - |tail|, i);
  }

  // The whole scan, line by line.
  method ChunkText(text: string) returns (chunks: seq<Chunk>)
    ensures chunks == Chunks(text) && Complete(SplitLines(text, false), chunks)
  {
    hide Flushed, Scanned, SplitLines, Complete, Cost, Flush, ScanFrom;
    var lines := SplitLines(text, false);
    chunks := [];
    var currentLines, currentChars, currentStartLine: nat := [], 0, 1;
    var i := 0;
    EmptyCost(lines);
    NothingScanned(lines);
    while i < |lines|
      invariant i <= |lines| && 1 <= currentStartLine
      invariant Window(lines, currentLines, currentStartLine - 1, i)
        && currentChars == Cost(lines, currentStartLine - 1, i)
      invariant Scanned(lines, chunks, currentStartLine - 1, i)
      invariant ScanFrom(lines, chunks, currentStartLine - 1, i) == ScanFrom(lines, [], 0, 0)
    {
      var lineChars := |lines[i]| + 1;
      if lineChars > TARGET_CHUNK_CHARS {
        chunks := EmitOversized(chunks, currentLines, currentStartLine, i, lines);
        currentLines, currentChars, currentStartLine := [], 0, i + 2;
      } else {
        if currentLines != [] && currentChars + lineChars > TARGET_CHUNK_CHARS {
          chunks, currentLines, currentChars := CloseFull(chunks, currentLines, currentStartLine, i, lines);
          currentStartLine := i - |currentLines| + 1;
        } else {
          ScanFits(lines, chunks, currentStartLine - 1, i);
          SameWindow(lines, chunks, currentStartLine - 1, i);
        }
        WindowGrows(lines, currentStartLine - 1, i);
        currentLines, currentChars := currentLines + [lines[i]], currentChars + lineChars;
      }
      i := i + 1;
    }
    ScanEnd(lines, chunks, currentStartLine - 1);
    chunks := BuildChunk(chunks, currentLines, currentStartLine, i, lines);
    AllScanned(lines, chunks);
  }

  method Total(lines: seq<string>) returns (total: nat)
    ensures total == Cost(lines, 0, |lines|)
  {
    total := 0;
    for i := 0 to |lines|
      invariant total == Cost(lines, 0, i)
    {
      total := total + |lines[i]| + 1;
    }
  }

  lemma SlicedBefore(lines: seq<string>, w: nat, i: nat)
    requires w <= i <= |lines| && NoOversized(lines, w, i)
    ensures forall n | 0 <= n < i && Oversized(lines[n]) :: n < w
  {
  }

  lemma FlushedWindow(lines: seq<string>, chunks: seq<Chunk>, w: nat, i: nat)
    requires w <= i <= |lines| && Scanned(lines, chunks, w, i)
    ensures Flushed(lines, Flush(lines, chunks, w, i), i) && (w < i ==> Flush(lines, chunks, w, i) != [])
  {
    hide Scanned, Flushed;
    if w == i { EmptyWindow(lines, chunks, i); } else { Closed(lines, chunks, w, i); }
  }

  lemma ScanBounds(lines: seq<string>, chunks: seq<Chunk>, w: nat, i: nat)
    requires Scanned(lines, chunks, w, i)
    ensures w <= i <= |lines| && NoOversized(lines, w, i)
      && (w > 0 ==> Oversized(lines[w - 1]) || Cost(lines, w - 1, i) > OVERLAP_CHARS)
  {
  }

  lemma {:induction false} TailStartBest(lines: seq<string>, w: nat, s: nat, i: nat)
    requires w <= s <= i <= |lines| && Cost(lines, s, i) <= OVERLAP_CHARS
    ensures var t := TailStart(lines, w, s, i);
      Cost(lines, t, i) <= OVERLAP_CHARS && (t > w ==> Cost(lines, t - 1, i) > OVERLAP_CHARS)
    decreases s
  {
    if s > w && Cost(lines, s - 1, i) <= OVERLAP_CHARS { TailStartBest(lines, w, s - 1, i); }
  }

  lemma NextScanned(lines: seq<string>, chunks: seq<Chunk>, w: nat, i: nat)
    requires w < i < |lines| && Scanned(lines, chunks, w, i) && !Oversized(lines[i])
    ensures Scanned(lines, Flush(lines, chunks, w, i), TailStart(lines, w, i, i), i + 1)
  {
    hide Scanned, Flushed, Flush, TailStart, Oversized;
    ScanBounds(lines, chunks, w, i);
    assert NoOversized(lines, TailStart(lines, w, i, i), i);
    assert Cost(lines, i, i) == 0;
    hide Cost, NoOversized;
    FlushedWindow(lines, chunks, w, i);
    TailStartBest(lines, w, i, i);
    NextWindow(lines, Flush(lines, chunks, w, i), TailStart(lines, w, i, i), i);
  }

  lemma PiecesScanned(lines: seq<string>, chunks: seq<Chunk>, w: nat, i: nat)
    requires w <= i < |lines| && Scanned(lines, chunks, w, i) && Oversized(lines[i])
    ensures var closed := Flush(lines, chunks, w, i); Scanned(lines, closed + Pieces(closed, lines[i], i), i + 1, i + 1)
  {
    hide Scanned, Flushed, Flush, Pieces;
    FlushedWindow(lines, chunks, w, i);
    PiecesEmitted(lines, Flush(lines, chunks, w, i), i);
  }

  lemma {:induction false} ScanCompletes(lines: seq<string>, chunks: seq<Chunk>, w: nat, i: nat)
    requires w <= i <= |lines| && Scanned(lines, chunks, w, i)
    ensures Complete(lines, ScanFrom(lines, chunks, w, i))
    decreases |lines| - i
  {
    hide Scanned, Flushed, Complete, Flush, Slices, Pieces, TailStart, Cost;
    if i == |lines| {
      FlushedWindow(lines, chunks, w, i);
      AllScanned(lines, Flush(lines, chunks, w, i));
    } else if Oversized(lines[i]) {
      PiecesScanned(lines, chunks, w, i);
      var closed := Flush(lines, chunks, w, i);
      ScanCompletes(lines, closed + Pieces(closed, lines[i], i), i + 1, i + 1);
    } else if w < i && Cost(lines, w, i) + |lines[i]| + 1 > TARGET_CHUNK_CHARS {
      NextScanned(lines, chunks, w, i);
      ScanCompletes(lines, Flush(lines, chunks, w, i), TailStart(lines, w, i, i), i + 1);
    } else {
      SameWindow(lines, chunks, w, i);
      ScanCompletes(lines, chunks, w, i + 1);
    }
  }

  // The chunks of every text keep every promise.
  lemma ChunksComplete(text: string)
    ensures Complete(SplitLines(text, false), Chunks(text))
  {
    hide Complete, Scanned;
    NothingScanned(SplitLines(text, false));
    ScanCompletes(SplitLines(text, false), [], 0, 0);
  }

  // ---------- what follows for a reader of the chunks ----------

  // The chunk that holds a short run is no slice of an oversized line.
  lemma NotSliced(lines: seq<string>, c: Chunk, p: nat, q: nat)
    requires ShortRun(lines, p, q) && c.startLine <= p + 1 && q <= c.endLine
    ensures !SliceChunk(lines, c)
  {
    hide Slices, Cost;
    if c.startLine == c.endLine {
      assert c.endLine - 1 == p;
      assert !Oversized(lines[p]);
    }
  }

  // Any consecutive lines worth at most the overlap stand whole in the text of one chunk.
  lemma OverlapGuarantee(lines: seq<string>, chunks: seq<Chunk>, p: nat, q: nat) returns (k: nat)
    requires Complete(lines, chunks) && ShortRun(lines, p, q)
    ensures k < |chunks| && Within(Join(lines[p..q]), chunks[k].text)
  {
    hide Cost, Slices, Join, Follows, SlicedAt;
    assert Held(chunks, p, q);
    k :| 0 <= k < |chunks| && chunks[k].startLine <= p + 1 && q <= chunks[k].endLine;
    var c := chunks[k];
    assert WholeChunk(lines, c) || SliceChunk(lines, c);
    NotSliced(lines, c, p, q);
    JoinWithin(lines[c.startLine - 1..c.endLine], p + 1 - c.startLine, q + 1 - c.startLine);
    SliceOfSlice(lines, c.startLine - 1, c.endLine, p + 1 - c.startLine, q + 1 - c.startLine);
  }

  // Any stretch of an oversized line no longer than the overlap stands whole in one slice.
  lemma SliceGuarantee(lines: seq<string>, chunks: seq<Chunk>, n: nat, u: nat, v: nat) returns (k: nat)
    requires Complete(lines, chunks) && n < |lines| && Oversized(lines[n])
    requires u < v <= |lines[n]| && v - u <= OVERLAP_CHARS
    ensures k < |chunks| && chunks[k].startLine == chunks[k].endLine == n + 1 && Within(lines[n][u..v], chunks[k].text)
  {
    hide Slices, InOrder, Within;
    var b: nat :| SlicedAt(lines, chunks, n, b);
    var j := SliceHolds(lines[n], 0, TARGET_CHUNK_CHARS, OVERLAP_CHARS, u, v);
    k := b + j;
  }

  // No chunk is longer than the target plus the overlap.
  lemma ChunksBounded(lines: seq<string>, chunks: seq<Chunk>, k: nat)
    requires Complete(lines, chunks) && k < |chunks|
    ensures |chunks[k].text| <= TARGET_CHUNK_CHARS + OVERLAP_CHARS
  {
    hide WholeChunk, SliceChunk, Follows, SlicedAt;
    if WholeChunk(lines, chunks[k]) { WholeBounded(lines, chunks[k]); } else { SliceBounded(lines, chunks[k]); }
  }

  lemma WholeBounded(lines: seq<string>, c: Chunk)
    requires WholeChunk(lines, c)
    ensures |c.text| <= TARGET_CHUNK_CHARS + OVERLAP_CHARS
  {
    hide Cost, Join, NoOversized;
    var here := lines[c.startLine - 1..c.endLine];
    JoinLength(here);
    CostOfSlice(lines, c.startLine - 1, c.endLine, 0, |here|);
  }

  lemma SliceBounded(lines: seq<string>, c: Chunk)
    requires SliceChunk(lines, c)
    ensures |c.text| <= TARGET_CHUNK_CHARS
  {
    hide Slices;
    SlicesBounded(lines[c.endLine - 1], 0, TARGET_CHUNK_CHARS, OVERLAP_CHARS);
  }
}
