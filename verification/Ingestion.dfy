// Incremental indexing of workspace files into one space: unchanged files are skipped by hash, and
// every changed file is replaced in a transaction of its own.
module Ingestion {
  import opened Options
  import opened Chunking

  const INGEST_WINDOW_SIZE: nat := 16

  type FilePath = string
  type Vector = seq<real>

  // A persisted chunk with the vector of its text.
  datatype ChunkRow = ChunkRow(chunk: Chunk, embedding: Vector)

  datatype Source = Source(origin: FilePath, contentHash: int, rows: seq<ChunkRow>)

  // Where the user cancels a run: in the file with this index, before this window of its chunks.
  datatype Cancellation = Cancellation(file: nat, window: nat)

  function RowsOf(chunks: seq<Chunk>, embed: string -> Vector): (rows: seq<ChunkRow>)
    ensures |rows| == |chunks| && forall k | 0 <= k < |chunks| :: rows[k] == ChunkRow(chunks[k], embed(chunks[k].text))
  {
    seq(|chunks|, k requires 0 <= k < |chunks| => ChunkRow(chunks[k], embed(chunks[k].text)))
  }

  // What a source of the given text must look like.
  function Indexed(origin: FilePath, text: string, hash: string -> int, embed: string -> Vector): Source
  {
    Source(origin, hash(text), RowsOf(Chunks(text), embed))
  }

  ghost predicate CollisionFree(hash: string -> int)
  {
    forall x, y | hash(x) == hash(y) :: x == y
  }

  ghost predicate OfSomeText(source: Source, hash: string -> int, embed: string -> Vector)
  {
    exists text: string :: source == Indexed(source.origin, text, hash, embed)
  }

  // One source per origin, each the index of some text.
  ghost predicate Consistent(sources: seq<Source>, hash: string -> int, embed: string -> Vector)
  {
    && (forall i, j | 0 <= i < j < |sources| :: sources[i].origin != sources[j].origin)
    && forall k | 0 <= k < |sources| :: OfSomeText(sources[k], hash, embed)
  }

  // The source indexes the current text of its origin.
  ghost predicate UpToDate(sources: seq<Source>, origin: FilePath, text: string, hash: string -> int,
                           embed: string -> Vector)
  {
    && Indexed(origin, text, hash, embed) in sources
    && forall s <- sources | s.origin == origin :: s == Indexed(origin, text, hash, embed)
  }

  // Sources of other origins are as they were.
  ghost predicate OthersKept(was: seq<Source>, now: seq<Source>, origins: set<FilePath>)
  {
    forall s: Source | s.origin !in origins :: s in was <==> s in now
  }

  // A source with the hash of a text is that text's index, when hashes do not collide.
  lemma SkippedUpToDate(sources: seq<Source>, k: nat, text: string, hash: string -> int, embed: string -> Vector)
    requires Consistent(sources, hash, embed) && CollisionFree(hash) && k < |sources|
      && sources[k].contentHash == hash(text)
    ensures UpToDate(sources, sources[k].origin, text, hash, embed)
  {
    assert OfSomeText(sources[k], hash, embed);
    var t: string :| sources[k] == Indexed(sources[k].origin, t, hash, embed);
    assert t == text;
    hide Indexed;
    forall s | s in sources && s.origin == sources[k].origin
      ensures s == sources[k]
    {
      var j :| 0 <= j < |sources| && sources[j] == s;
    }
  }

  // Writing the index of a text in the place of its origin's source, or as a new one.
  function Stored(sources: seq<Source>, k: nat, source: Source): seq<Source>
    requires k <= |sources|
  {
    if k < |sources| then sources[k := source] else sources + [source]
  }

  lemma StoredConsistent(sources: seq<Source>, k: nat, origin: FilePath, text: string, hash: string -> int,
                         embed: string -> Vector)
    requires Consistent(sources, hash, embed) && k <= |sources|
    requires if k < |sources| then sources[k].origin == origin else forall s <- sources :: s.origin != origin
    ensures var now := Stored(sources, k, Indexed(origin, text, hash, embed));
      Consistent(now, hash, embed) && UpToDate(now, origin, text, hash, embed) && OthersKept(sources, now, {origin})
  {
    hide RowsOf, Chunks;
    var source := Indexed(origin, text, hash, embed);
    var now := Stored(sources, k, source);
    assert now[k] == source && forall j | 0 <= j < |now| && j != k :: now[j] == sources[j];
    forall j | 0 <= j < |sources| && j != k
      ensures sources[j].origin != origin
    {
      if k == |sources| { assert sources[j] in sources; }
    }
    forall i, j | 0 <= i < j < |now|
      ensures now[i].origin != now[j].origin
    {
      assert i != k ==> now[i] == sources[i];
      assert j != k ==> now[j] == sources[j];
    }
    forall j | 0 <= j < |now|
      ensures OfSomeText(now[j], hash, embed)
    {
      if j != k { assert OfSomeText(sources[j], hash, embed); }
    }
    forall s: Source | s.origin != origin
      ensures s in sources <==> s in now
    {
      if s in sources { var j :| 0 <= j < |sources| && sources[j] == s; assert now[j] == s; }
    }
    forall s | s in now && s.origin == origin
      ensures s == source
    {
      var j :| 0 <= j < |now| && now[j] == s;
    }
  }

  lemma UpToDateKept(was: seq<Source>, now: seq<Source>, origins: set<FilePath>, origin: FilePath, text: string,
                     hash: string -> int, embed: string -> Vector)
    requires UpToDate(was, origin, text, hash, embed) && OthersKept(was, now, origins) && origin !in origins
    ensures UpToDate(now, origin, text, hash, embed)
  {
    hide RowsOf, Chunks;
  }

  lemma OthersTrans(a: seq<Source>, b: seq<Source>, c: seq<Source>, x: set<FilePath>, y: set<FilePath>)
    requires OthersKept(a, b, x) && OthersKept(b, c, y)
    ensures OthersKept(a, c, x + y)
  {
  }

  class Space {
    const hash: string -> int
    const embed: string -> Vector
    var sources: seq<Source>

    ghost predicate Valid()
      reads this
    {
      Consistent(sources, hash, embed)
    }

    constructor (hash: string -> int, embed: string -> Vector)
      ensures Valid() && sources == [] && this.hash == hash && this.embed == embed
    {
      this.hash, this.embed, sources := hash, embed, [];
    }

    method FindSource(origin: FilePath) returns (k: nat)
      ensures k <= |sources|
      ensures if k < |sources| then sources[k].origin == origin else forall s <- sources :: s.origin != origin
    {
      k := 0;
      while k < |sources| && sources[k].origin != origin
        invariant k <= |sources| && forall j | 0 <= j < k :: sources[j].origin != origin
      {
        k := k + 1;
      }
    }

    // Chunks and embeds a text window by window; the rows are only seen by others once committed.
    // A cancellation before some window leaves nothing behind.
    method AddSourceAndChunks(origin: FilePath, text: string, existing: nat, cancelBefore: Option<nat>)
      returns (committed: bool)
      requires Valid() && existing <= |sources|
      requires if existing < |sources| then sources[existing].origin == origin else forall s <- sources ::
          s.origin != origin
      modifies this`sources
      ensures !committed ==> sources == old(sources)
      ensures committed ==> sources == Stored(old(sources), existing, Indexed(origin, text, hash, embed))
      ensures cancelBefore.None? ==> committed
    {
      hide Complete;
      var chunks := ChunkText(text);
      hide Chunks;
      var rows: seq<ChunkRow> := [];
      var next: nat, window: nat := 0, 0;
      while true
        invariant next <= |chunks| && rows == RowsOf(chunks[..next], embed)
        decreases |chunks| - next
      {
        if cancelBefore == Some(window) { return false; }
        var last := if next + INGEST_WINDOW_SIZE < |chunks| then next + INGEST_WINDOW_SIZE else |chunks|;
        var batch := chunks[next..last];
        if batch == [] { break; }
        assert chunks[..last] == chunks[..next] + batch;
        rows := rows + RowsOf(batch, embed);
        next, window := last, window + 1;
      }
      assert chunks[..next] == chunks;
      sources := Stored(sources, existing, Source(origin, hash(text), rows));
      return true;
    }

    // Indexes every readable candidate whose text changed, one file after the other.
    method IngestWorkspacePath(candidates: seq<FilePath>, files: FilePath -> Option<string>,
                               cancel: Option<Cancellation>) returns (completed: bool)
      requires Valid() && CollisionFree(hash)
      requires forall i, j | 0 <= i < j < |candidates| :: candidates[i] != candidates[j]
      modifies this`sources
      ensures Valid() && OthersKept(old(sources), sources, set p | p in candidates)
      ensures completed ==> forall p <- candidates | files(p).Some? :: UpToDate(sources, p, files(p).value, hash, embed)
      ensures forall p <- candidates | files(p).None? ::
          OthersKept(old(sources), sources, (set q | q in candidates) - {p})
      ensures cancel.None? ==> completed
    {
      hide Consistent, UpToDate, OthersKept, Indexed, CollisionFree, Stored;
      var i := 0;
      ghost var done: set<FilePath> := {};
      NothingDone(sources);
      while i < |candidates|
        invariant i <= |candidates| && Valid() && OthersKept(old(sources), sources, done)
        invariant forall p :: p in done <==> p in candidates[..i] && files(p).Some?
        invariant forall p <- done :: files(p).Some? && UpToDate(sources, p, files(p).value, hash, embed)
      {
        var path := candidates[i];
        var text := files(path);
        assert path !in candidates[..i];
        assert candidates[..i + 1] == candidates[..i] + [path];
        if text.Some? {
          var k := FindSource(path);
          ghost var before := sources;
          if k < |sources| && sources[k].contentHash == hash(text.value) {
            SkippedUpToDate(sources, k, text.value, hash, embed);
            OthersWiden(old(sources), sources, done, done + {path});
          } else {
            var stop := if cancel.Some? && cancel.value.file == i then Some(cancel.value.window) else None;
            StoredConsistent(sources, k, path, text.value, hash, embed);
            var committed := AddSourceAndChunks(path, text.value, k, stop);
            if !committed {
              CutShort(old(sources), sources, candidates, files, done);
              return false;
            }
            OthersTrans(old(sources), before, sources, done, {path});
            forall p | p in done
              ensures UpToDate(sources, p, files(p).value, hash, embed)
            {
              UpToDateKept(before, sources, {path}, p, files(p).value, hash, embed);
            }
          }
          done := done + {path};
        }
        i := i + 1;
      }
      assert candidates[..i] == candidates;
      CutShort(old(sources), sources, candidates, files, done);
      return true;
    }
  }

  lemma NothingDone(sources: seq<Source>)
    ensures OthersKept(sources, sources, {})
  {
  }

  lemma OthersWiden(was: seq<Source>, now: seq<Source>, x: set<FilePath>, y: set<FilePath>)
    requires OthersKept(was, now, x) && x <= y
    ensures OthersKept(was, now, y)
  {
  }

  // However far a run got, it only touched readable candidates.
  lemma CutShort(was: seq<Source>, now: seq<Source>, candidates: seq<FilePath>, files: FilePath -> Option<string>,
                 done: set<FilePath>)
    requires OthersKept(was, now, done) && forall p <- done :: p in candidates && files(p).Some?
    ensures OthersKept(was, now, set p | p in candidates)
    ensures forall p <- candidates | files(p).None? :: OthersKept(was, now, (set q | q in candidates) - {p})
  {
    OthersWiden(was, now, done, set p | p in candidates);
    forall p | p in candidates && files(p).None?
      ensures OthersKept(was, now, (set q | q in candidates) - {p})
    {
      OthersWiden(was, now, done, (set q | q in candidates) - {p});
    }
  }
}
