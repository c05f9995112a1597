/** The database tables and the ingestion run that changes them in place. */
module RagStore {
  import opened Text
  import opened StreamTypes
  import opened RagIndex
  import opened IngestAgreement
  import Windows

  datatype Chunk = Chunk(path: string, ordinal: nat, text: string)

  datatype Embedding = Embedding(dim: nat, blob: seq<byte>)

  datatype DbError = UniqueViolation

  datatype IngestStats = IngestStats(filesIndexed: nat, chunksTotal: nat, embeddingsWritten: nat)

  function KeyOf(c: Chunk): (string, nat) {
    (c.path, c.ordinal)
  }

  function Decoded(e: Embedding): Option<Vector> {
    FromBlob(e.blob, e.dim)
  }

  /** The tables by value, with the row id of each path and ordinal. */
  datatype Tables = Tables(
    chunks: map<nat, Chunk>, embeddings: map<nat, Embedding>, ids: map<(string, nat), nat>, nextId: nat)

  ghost predicate IdBacked(t: Tables, id: nat)
    requires id in t.chunks
  {
    id < t.nextId && KeyOf(t.chunks[id]) in t.ids && t.ids[KeyOf(t.chunks[id])] == id
  }

  ghost predicate KeyBacked(t: Tables, k: (string, nat))
    requires k in t.ids
  {
    t.ids[k] in t.chunks && KeyOf(t.chunks[t.ids[k]]) == k
  }

  /** The unique index is consistent, and every row id in use is below the next one. */
  ghost predicate Indexed(t: Tables) {
    && (forall id :: id in t.chunks ==> IdBacked(t, id))
    && (forall k :: k in t.ids ==> KeyBacked(t, k))
    && t.embeddings.Keys <= t.chunks.Keys
  }

  /** Besides, every chunk has exactly one embedding, and its blob is readable. */
  ghost predicate Complete(t: Tables) {
    && Indexed(t)
    && forall id :: id in t.chunks ==> id in t.embeddings && Decoded(t.embeddings[id]).Some?
  }

  ghost function RowOfKey(t: Tables, k: (string, nat)): Row
    requires Complete(t) && k in t.ids
  {
    assert KeyBacked(t, k);
    Row(t.chunks[t.ids[k]].text, Decoded(t.embeddings[t.ids[k]]).value)
  }

  ghost function RowsOf(t: Tables): map<(string, nat), Row>
    requires Complete(t)
  {
    map k | k in t.ids :: RowOfKey(t, k)
  }

  /** The tables without the rows of one path. */
  ghost function Deleted(t: Tables, path: string): Tables {
    var gone := set id | id in t.chunks && t.chunks[id].path == path;
    Tables(t.chunks - gone, t.embeddings - gone, map k | k in t.ids && k.0 != path :: t.ids[k], t.nextId)
  }

  lemma DeletedComplete(t: Tables, path: string)
    requires Complete(t)
    ensures Complete(Deleted(t, path))
  {
    hide Decoded;
    var d := Deleted(t, path);
    forall id | id in d.chunks ensures IdBacked(d, id) {
      assert IdBacked(t, id);
    }
    forall k | k in d.ids ensures KeyBacked(d, k) {
      assert KeyBacked(t, k);
    }
  }

  lemma DeletedRows(t: Tables, path: string)
    requires Complete(t) && Complete(Deleted(t, path))
    ensures RowsOf(Deleted(t, path)) == WithoutPath(RowsOf(t), path)
  {
    hide Decoded;
    var d := Deleted(t, path);
    forall k | k in d.ids ensures RowOfKey(d, k) == RowOfKey(t, k) {
      assert KeyBacked(t, k) && KeyBacked(d, k);
    }
  }

  /** The tables with one chunk more, its embedding still missing. */
  ghost function WithChunk(t: Tables, c: Chunk): Tables {
    Tables(t.chunks[t.nextId := c], t.embeddings, t.ids[KeyOf(c) := t.nextId], t.nextId + 1)
  }

  lemma WithChunkIndexed(t: Tables, c: Chunk)
    requires Indexed(t) && KeyOf(c) !in t.ids
    ensures Indexed(WithChunk(t, c)) && t.nextId !in t.chunks
  {
    var u := WithChunk(t, c);
    assert t.nextId in t.chunks ==> IdBacked(t, t.nextId);
    forall id | id in u.chunks ensures IdBacked(u, id) {
      assert id != t.nextId ==> IdBacked(t, id);
    }
    forall k | k in u.ids ensures KeyBacked(u, k) {
      assert k != KeyOf(c) ==> KeyBacked(t, k);
    }
  }

  ghost function WithPiece(t: Tables, c: Chunk, vec: Vector): Tables {
    WithChunk(t, c).(embeddings := t.embeddings[t.nextId := Embedding(|vec|, ToBlob(vec))])
  }

  lemma WithPieceComplete(t: Tables, c: Chunk, vec: Vector)
    requires Complete(t) && KeyOf(c) !in t.ids
    ensures Complete(WithPiece(t, c, vec))
  {
    hide Decoded;
    WithChunkIndexed(t, c);
    assert Decoded(Embedding(|vec|, ToBlob(vec))).Some? by {
      BlobRoundTrip(vec, |vec|);
      DecodedIs(vec);
    }
    var u, v := WithChunk(t, c), WithPiece(t, c, vec);
    forall id | id in v.chunks ensures IdBacked(v, id) {
      assert IdBacked(u, id);
    }
    forall k | k in v.ids ensures KeyBacked(v, k) {
      assert KeyBacked(u, k);
    }
  }

  lemma DecodedIs(vec: Vector)
    ensures Decoded(Embedding(|vec|, ToBlob(vec))) == Some(vec)
  {
    BlobRoundTrip(vec, |vec|);
  }

  lemma RowKept(t: Tables, c: Chunk, vec: Vector, k: (string, nat))
    requires Complete(t) && Complete(WithPiece(t, c, vec)) && KeyOf(c) !in t.ids && t.nextId !in t.chunks && k in t.ids
    ensures k in WithPiece(t, c, vec).ids && RowOfKey(WithPiece(t, c, vec), k) == RowOfKey(t, k)
  {
    hide Decoded, ToBlob;
    assert KeyBacked(t, k);
  }

  lemma RowAdded(t: Tables, c: Chunk, vec: Vector)
    requires Complete(WithPiece(t, c, vec))
    ensures RowOfKey(WithPiece(t, c, vec), KeyOf(c)) == Row(c.text, vec)
  {
    hide Decoded, ToBlob;
    DecodedIs(vec);
  }

  lemma WithPieceRows(t: Tables, c: Chunk, vec: Vector)
    requires Complete(t) && Complete(WithPiece(t, c, vec)) && KeyOf(c) !in t.ids && t.nextId !in t.chunks
    ensures RowsOf(WithPiece(t, c, vec)) == RowsOf(t)[KeyOf(c) := Row(c.text, vec)]
  {
    hide Complete, RowOfKey;
    RowAdded(t, c, vec);
    forall k | k in t.ids ensures RowOfKey(WithPiece(t, c, vec), k) == RowOfKey(t, k) {
      RowKept(t, c, vec, k);
    }
  }

  class Store {
    const env: Env
    var chunks: map<nat, Chunk>
    var embeddings: map<nat, Embedding>
    var files: map<string, FileMeta>
    var nextId: nat
    ghost var ids: map<(string, nat), nat>

    constructor (env: Env)
      ensures Valid() && View() == EMPTY && this.env == env
    {
      this.env := env;
      chunks, embeddings, files, nextId, ids := map[], map[], map[], 1, map[];
    }

    ghost function Contents(): Tables
      reads this
    {
      Tables(chunks, embeddings, ids, nextId)
    }

    ghost predicate Valid()
      reads this
    {
      Complete(Contents())
    }

    ghost function Rows(): map<(string, nat), Row>
      reads this
      requires Valid()
    {
      RowsOf(Contents())
    }

    ghost function View(): Index
      reads this
      requires Valid()
    {
      Index(Rows(), files)
    }

    method FileIsUnchanged(path: string, hash: string, size: int, mtime: int) returns (same: bool)
      ensures same <==> path in files && files[path].hash == hash && files[path].size == size && files[path].mtime == mtime
    {
      if path in files {
        var meta := files[path];
        return meta.hash == hash && meta.size == size && meta.mtime == mtime;
      }
      same := false;
    }

    method UpsertFileMeta(path: string, meta: FileMeta)
      modifies this`files
      ensures files == old(files)[path := meta]
    {
      files := files[path := meta];
    }

    /** Deleting the chunks of a path deletes their embeddings with them. */
    method DeleteFileAndChunks(path: string)
      requires Valid()
      modifies this
      ensures Valid() && View() == Drop(old(View()), path)
    {
      hide Complete, RowsOf;
      DeletedComplete(Contents(), path);
      DeletedRows(Contents(), path);
      var gone := set id | id in chunks && chunks[id].path == path;
      chunks := chunks - gone;
      embeddings := embeddings - gone;
      files := files - {path};
      ids := map k | k in ids && k.0 != path :: ids[k];
      assert Contents() == Deleted(old(Contents()), path);
    }

    /** Fails on a path and ordinal that are already there; the embedding is still to come. */
    method InsertChunk(path: string, ordinal: nat, text: string) returns (r: Result<nat, DbError>)
      requires Indexed(Contents())
      modifies this`chunks, this`nextId, this`ids
      ensures r.Err? <==> (path, ordinal) in old(ids)
      ensures r.Err? ==> Contents() == old(Contents())
      ensures r.Ok? ==> r.value == old(nextId) && Contents() == WithChunk(old(Contents()), Chunk(path, ordinal, text))
    {
      if exists id :: id in chunks && chunks[id].path == path && chunks[id].ordinal == ordinal {
        ghost var id :| id in chunks && chunks[id].path == path && chunks[id].ordinal == ordinal;
        assert IdBacked(Contents(), id);
        return Err(UniqueViolation);
      }
      assert (path, ordinal) in ids ==> KeyBacked(Contents(), (path, ordinal));
      var id := nextId;
      nextId := nextId + 1;
      chunks := chunks[id := Chunk(path, ordinal, text)];
      ids := ids[(path, ordinal) := id];
      r := Ok(id);
    }

    method InsertEmbedding(id: nat, vec: Vector)
      modifies this`embeddings
      ensures embeddings == old(embeddings)[id := Embedding(|vec|, ToBlob(vec))]
    {
      var bytes := EncodeVector(vec);
      embeddings := embeddings[id := Embedding(|vec|, bytes)];
    }

    /** A piece and its embedding, inserted one after the other. */
    method InsertPiece(path: string, ordinal: nat, text: string, vec: Vector) returns (r: Result<nat, DbError>)
      requires Valid()
      modifies this`chunks, this`nextId, this`ids, this`embeddings
      ensures Valid()
      ensures r.Err? <==> (path, ordinal) in old(Rows())
      ensures r.Err? ==> Rows() == old(Rows())
      ensures r.Ok? ==> Rows() == old(Rows())[(path, ordinal) := Row(text, vec)]
    {
      hide Decoded, ToBlob;
      r := InsertChunk(path, ordinal, text);
      if r.Err? {
        return;
      }
      hide RowsOf, Complete;
      ghost var c := Chunk(path, ordinal, text);
      CompleteIsIndexed(old(Contents()), (path, ordinal));
      WithChunkIndexed(old(Contents()), c);
      WithPieceComplete(old(Contents()), c, vec);
      WithPieceRows(old(Contents()), c, vec);
      InsertEmbedding(r.value, vec);
      assert Contents() == WithPiece(old(Contents()), c, vec);
    }

    /** One embedding call for the pieces waiting in the batch, then their rows. */
    method FlushPathBatch(path: string, batch: seq<(nat, string)>, budget: nat,
                          ghost base: map<(string, nat), Row>, ghost pieces: seq<string>, ghost from: nat)
      returns (ok: bool, left: nat)
      requires Valid() && NoPath(base, path)
      requires from + |batch| <= |pieces| && Rows() == Fill(env, base, path, pieces, from)
      requires forall i :: 0 <= i < |batch| ==> batch[i] == (from + i, pieces[from + i])
      modifies this`chunks, this`nextId, this`ids, this`embeddings
      ensures Valid()
      ensures ok <==> batch == [] || budget > 0
      ensures left == if batch == [] || budget == 0 then budget else budget - 1
      ensures Rows() == Fill(env, base, path, pieces, if ok then from + |batch| else from)
      ensures Stored(env, Rows(), path, pieces, if ok then from + |batch| else from)
    {
      hide Rows, Complete, Stored;
      FillStored(env, base, path, pieces, from);
      FillStored(env, base, path, pieces, from + |batch|);
      if batch == [] {
        return true, budget;
      }
      if budget == 0 {
        return false, 0;
      }
      for i := 0 to |batch|
        invariant Valid()
        invariant Rows() == Fill(env, base, path, pieces, from + i)
      {
        var (ordinal, text) := batch[i];
        FillKeys(env, base, path, pieces, from + i, ordinal);
        var inserted := InsertPiece(path, ordinal, text, env.embed(text));
        assert inserted.Ok?;
      }
      return true, budget - 1;
    }

    /** Embeds and inserts all pieces of a file, batch by batch; `chunks` counts the pieces taken. */
    method WritePieces(path: string, pieces: seq<string>, budget: nat, ghost base: map<(string, nat), Row>)
      returns (ok: bool, left: nat, written: nat, chunks: nat)
      requires Valid() && NoPath(base, path) && Rows() == base
      modifies this`chunks, this`nextId, this`ids, this`embeddings
      ensures Valid()
      ensures ok <==> Calls(|pieces|) <= budget
      ensures ok ==> left == budget - Calls(|pieces|) && written == |pieces|
      ensures !ok ==> left == 0 && written == EMBED_BATCH * budget <= |pieces|
      ensures written <= chunks && (ok ==> written == chunks)
      ensures Rows() == Fill(env, base, path, pieces, written) && Stored(env, Rows(), path, pieces, written)
    {
      hide Rows, Complete, Fill, Stored;
      FillNothing(env, base, path, pieces);
      var batch: seq<(nat, string)> := [];
      left, chunks := budget, 0;
      for i := 0 to |pieces|
        invariant chunks == i
        invariant |batch| < EMBED_BATCH && |batch| <= i && left <= budget && i - |batch| == EMBED_BATCH * (budget - left)
        invariant Valid() && Rows() == Fill(env, base, path, pieces, i - |batch|)
        invariant forall j :: 0 <= j < |batch| ==> batch[j] == (i - |batch| + j, pieces[i - |batch| + j])
      {
        chunks := chunks + 1;
        batch := batch + [(i, pieces[i])];
        if |batch| >= EMBED_BATCH {
          ok, left := FlushPathBatch(path, batch, left, base, pieces, i + 1 - |batch|);
          if !ok {
            return false, 0, i + 1 - |batch|, chunks;
          }
          batch := [];
        }
      }
      var from := |pieces| - |batch|;
      ok, left := FlushPathBatch(path, batch, left, base, pieces, from);
      written := if ok then |pieces| else from;
    }

    /** Indexes one readable file again unless its record says it is unchanged. */
    method IndexOneFile(path: string, f: File, now: int, budget: nat)
      returns (ok: bool, left: nat, written: nat, chunks: nat)
      requires Valid()
      modifies this
      ensures Valid() && (ok ==> written == chunks)
      ensures Progress(View(), left, written, !ok) == IndexFile(env, old(View()), path, f, now, budget)
      ensures written == 0 || written == |Pieces(f.text)| || written == EMBED_BATCH * budget
      ensures written > 0 ==> written <= |Pieces(f.text)| && Stored(env, Rows(), path, Pieces(f.text), written)
      ensures ok && written > 0 ==> path in files && files[path] == FileMeta(env.hash(f.text), f.size, f.mtime, now)
    {
      hide RowsOf, Complete, Fill, Drop, Calls, Stored;
      var hash := env.hash(f.text);
      var same := FileIsUnchanged(path, hash, f.size, f.mtime);
      if same {
        return true, budget, 0, 0;
      }
      DeleteFileAndChunks(path);
      var pieces := Windows.ChunkText(f.text, CHUNK_CHARS, CHUNK_OVERLAP);
      if pieces == [] {
        return true, budget, 0, 0;
      }
      assert pieces == Pieces(f.text);
      ghost var y := Drop(old(View()), path);
      assert View() == y && Rows() == y.rows;
      DroppedHasNoPath(old(View()), path);
      ok, left, written, chunks := WritePieces(path, pieces, budget, y.rows);
      if ok {
        ghost var tables := Contents();
        UpsertFileMeta(path, FileMeta(hash, f.size, f.mtime, now));
        assert Contents() == tables;
        assert View() == Index(Fill(env, y.rows, path, pieces, |pieces|), y.files[path := FileMeta(hash, f.size, f.mtime, now)]);
      } else {
        assert View() == Index(Fill(env, y.rows, path, pieces, EMBED_BATCH * budget), y.files);
      }
    }

    /** A whole run over the sorted listing; `budget` embedding calls succeed. */
    method RunIngest(listing: seq<Entry>, budget: nat) returns (ok: bool, left: nat, stats: IngestStats)
      requires Valid()
      modifies this
      ensures Valid()
      ensures Progress(View(), left, stats.embeddingsWritten, !ok) == Ingest(env, old(View()), listing, budget)
      ensures stats.filesIndexed == |listing| && (ok ==> stats.chunksTotal == stats.embeddingsWritten)
      ensures StoresListed(env, old(View()), View(), listing, ok)
    {
      hide Rows, Complete, IndexFile, Prune, StoresListed;
      RunStores(env, View(), listing, budget);
      left, stats := budget, IngestStats(|listing|, 0, 0);
      for i := 0 to |listing|
        invariant Valid() && stats.filesIndexed == |listing| && stats.chunksTotal == stats.embeddingsWritten
        invariant var q := IndexFiles(env, View(), listing[i..], left);
                  q.(written := stats.embeddingsWritten + q.written) == IndexFiles(env, old(View()), listing, budget)
      {
        assert listing[i..][0] == listing[i] && listing[i..][1..] == listing[i + 1..];
        var e := listing[i];
        if e.file.Some? {
          var written, chunks;
          ok, left, written, chunks := IndexOneFile(e.key, e.file.value, e.now, left);
          stats := stats.(chunksTotal := stats.chunksTotal + chunks, embeddingsWritten := stats.embeddingsWritten + written);
          if !ok {
            return;
          }
        }
      }
      assert listing[|listing|..] == [];
      var seen := Keys(listing);
      PruneFiles(seen);
      ok := true;
    }

    /** Deletes every recorded file that was not seen. */
    method PruneFiles(seen: set<string>)
      requires Valid()
      modifies this
      ensures Valid() && View() == Prune(old(View()), seen)
    {
      hide Rows, Complete;
      var all := files.Keys;
      var rest := all;
      PruneNothing(View(), seen, rest);
      while rest != {}
        invariant Valid() && rest <= all
        invariant View() == PruneSome(old(View()), seen, all - rest)
        decreases rest
      {
        var p :| p in rest;
        PruneOne(old(View()), seen, all - rest, p);
        rest := rest - {p};
        assert all - rest == all - (rest + {p}) + {p};
        if p !in seen {
          DeleteFileAndChunks(p);
        }
      }
      assert all - rest == all;
    }
  }

  /** Pruning of only those recorded files that were looked at. */
  function PruneSome(x: Index, seen: set<string>, looked: set<string>): Index {
    Index(map k | k in x.rows && (k.0 in seen || k.0 !in looked) :: x.rows[k],
          map p | p in x.files && (p in seen || p !in looked) :: x.files[p])
  }

  lemma PruneNothing(x: Index, seen: set<string>, rest: set<string>)
    ensures PruneSome(x, seen, rest - rest) == x
    ensures PruneSome(x, seen, x.files.Keys) == Prune(x, seen)
  {
    assert rest - rest == {};
    assert PruneSome(x, seen, {}).rows == x.rows && PruneSome(x, seen, {}).files == x.files;
  }

  lemma PruneOne(x: Index, seen: set<string>, looked: set<string>, p: string)
    ensures p in seen ==> PruneSome(x, seen, looked + {p}) == PruneSome(x, seen, looked)
    ensures p !in seen ==> PruneSome(x, seen, looked + {p}) == Drop(PruneSome(x, seen, looked), p)
  {
    var a, b := PruneSome(x, seen, looked + {p}), PruneSome(x, seen, looked);
    if p in seen {
      assert a.rows == b.rows && a.files == b.files;
    } else {
      assert a.rows == WithoutPath(b.rows, p);
      assert a.files == b.files - {p};
    }
  }

  ghost predicate NoPath(rows: map<(string, nat), Row>, path: string) {
    forall k :: k in rows ==> k.0 != path
  }

  lemma DroppedHasNoPath(x: Index, path: string)
    ensures NoPath(Drop(x, path).rows, path)
  {
  }

  lemma FillNothing(env: Env, rows: map<(string, nat), Row>, path: string, pieces: seq<string>)
    ensures Fill(env, rows, path, pieces, 0) == rows
  {
  }

  /** The ordinals filled in so far, and the next step. */
  lemma {:induction false} FillKeys(env: Env, base: map<(string, nat), Row>, path: string, pieces: seq<string>, n: nat, k: nat)
    requires NoPath(base, path) && n <= |pieces|
    ensures (path, k) in Fill(env, base, path, pieces, n) <==> k < n
    ensures n < |pieces| ==>
              Fill(env, base, path, pieces, n + 1) == Fill(env, base, path, pieces, n)[(path, n) := Row(pieces[n], env.embed(pieces[n]))]
    decreases n
  {
    if n > 0 {
      FillKeys(env, base, path, pieces, n - 1, k);
    }
  }

  lemma CompleteIsIndexed(t: Tables, k: (string, nat))
    requires Complete(t)
    ensures Indexed(t) && (k in RowsOf(t) <==> k in t.ids)
  {
  }
}
