/** The retrieval index: what a run of ingestion does to it, as values. */
module RagIndex {
  import opened Text
  import opened Windows
  import opened StreamTypes

  const CHUNK_CHARS := 900
  const CHUNK_OVERLAP := 120
  const EMBED_BATCH := 16

  /** An embedding: the bit patterns of its 32-bit floats. */
  type Vector = seq<u32>

  datatype Row = Row(text: string, vec: Vector)

  datatype FileMeta = FileMeta(hash: string, size: int, mtime: int, indexedAt: int)

  /** Rows by path and ordinal, and the record of the files that are fully indexed. */
  datatype Index = Index(rows: map<(string, nat), Row>, files: map<string, FileMeta>)

  const EMPTY := Index(map[], map[])

  datatype File = File(text: string, size: int, mtime: int)

  /** One listed file: its key, its content unless it cannot be read, and the time it is indexed. */
  datatype Entry = Entry(key: string, file: Option<File>, now: int)

  /** The foreign functions: the content hash and the embedding model. */
  datatype Env = Env(hash: string -> string, embed: string -> Vector)

  function Pieces(text: string): seq<string> {
    Chunks(text, CHUNK_CHARS, CHUNK_OVERLAP)
  }

  /** A piece is a visible stretch of the text of at most 900 characters. */
  lemma PieceIsStretch(text: string, piece: string)
    requires piece in Pieces(text)
    ensures 0 < |piece| <= 900 && !IsBlank(piece) && Contains(text, piece)
  {
    hide IsBlank, Contains, Chunks;
    StoredIsStretch(text, CHUNK_CHARS, CHUNK_OVERLAP, piece);
  }

  /** Any 121 characters with a visible one among them stand together in some piece. */
  lemma VisibleTextInPiece(text: string, p: nat, n: nat, i: nat) returns (piece: string)
    requires p <= i < p + n && n <= 121 && p + n <= |text| && !IsWhitespace(text[i])
    ensures piece in Pieces(text) && Contains(piece, text[p..p + n])
  {
    hide IsBlank, IsWhitespace, Contains, Chunks;
    piece := VisibleTextIsStored(text, CHUNK_CHARS, CHUNK_OVERLAP, p, n, i);
  }

  /** The first `n` pieces added under a path, ordinals from 0. */
  function Fill(env: Env, rows: map<(string, nat), Row>, path: string, pieces: seq<string>, n: nat): map<(string, nat), Row>
    requires n <= |pieces|
  {
    if n == 0 then rows
    else Fill(env, rows, path, pieces, n - 1)[(path, n - 1) := Row(pieces[n - 1], env.embed(pieces[n - 1]))]
  }

  /** Under a path stand exactly the first `n` pieces, ordinals from 0, each with its own embedding. */
  ghost predicate Stored(env: Env, rows: map<(string, nat), Row>, path: string, pieces: seq<string>, n: nat)
    requires n <= |pieces|
  {
    forall j: nat ::
      ((path, j) in rows <==> j < n)
      && ((path, j) in rows && j < n ==> rows[(path, j)].text == pieces[j] && rows[(path, j)].vec == env.embed(pieces[j]))
  }

  function WithoutPath(rows: map<(string, nat), Row>, path: string): map<(string, nat), Row> {
    map k | k in rows && k.0 != path :: rows[k]
  }

  function Drop(x: Index, path: string): Index {
    Index(WithoutPath(x.rows, path), x.files - {path})
  }

  predicate Unchanged(env: Env, x: Index, path: string, f: File) {
    path in x.files && x.files[path].hash == env.hash(f.text)
    && x.files[path].size == f.size && x.files[path].mtime == f.mtime
  }

  /** Embedding calls needed for `n` pieces. */
  function Calls(n: nat): nat {
    (n + EMBED_BATCH - 1) / EMBED_BATCH
  }

  /** `budget` is the number of embedding calls that succeed before one fails. */
  datatype Progress = Progress(index: Index, budget: nat, written: nat, failed: bool)

  function IndexFile(env: Env, x: Index, path: string, f: File, now: int, budget: nat): Progress {
    var pieces := Pieces(f.text);
    var y := Drop(x, path);
    if Unchanged(env, x, path, f) then Progress(x, budget, 0, false)
    else if pieces == [] then Progress(y, budget, 0, false)
    else if Calls(|pieces|) <= budget then
      Progress(Index(Fill(env, y.rows, path, pieces, |pieces|),
                     y.files[path := FileMeta(env.hash(f.text), f.size, f.mtime, now)]),
               budget - Calls(|pieces|), |pieces|, false)
    else
      var n := EMBED_BATCH * budget;
      Progress(Index(Fill(env, y.rows, path, pieces, n), y.files), 0, n, true)
  }

  function IndexFiles(env: Env, x: Index, listing: seq<Entry>, budget: nat): Progress
    decreases |listing|
  {
    if listing == [] then Progress(x, budget, 0, false)
    else
      var e := listing[0];
      var p := if e.file.Some? then IndexFile(env, x, e.key, e.file.value, e.now, budget)
               else Progress(x, budget, 0, false);
      if p.failed then p
      else
        var q := IndexFiles(env, p.index, listing[1..], p.budget);
        q.(written := p.written + q.written)
  }

  function Keys(listing: seq<Entry>): set<string> {
    set e | e in listing :: e.key
  }

  /** Drops the recorded files that are not listed any more. */
  function Prune(x: Index, seen: set<string>): Index {
    Index(map k | k in x.rows && (k.0 in seen || k.0 !in x.files) :: x.rows[k],
          map p | p in x.files && p in seen :: x.files[p])
  }

  /** A whole run: a failing embedding call ends it before anything is pruned. */
  function Ingest(env: Env, x: Index, listing: seq<Entry>, budget: nat): Progress {
    var p := IndexFiles(env, x, listing, budget);
    if p.failed then p else p.(index := Prune(p.index, Keys(listing)))
  }

  // --- Vectors as blobs ---

  /** A 32-bit word as four bytes, least significant first. */
  function WordBytes(w: u32): (b: seq<byte>)
    ensures |b| == 4
  {
    [w % 256, w / 256 % 256, w / 65536 % 256, w / 16777216]
  }

  function BytesWord(b: seq<byte>): u32
    requires |b| == 4
  {
    var n: int := b[0] as int + 256 * (b[1] as int) + 65536 * (b[2] as int) + 16777216 * (b[3] as int);
    n
  }

  function ToBlob(v: Vector): (b: seq<byte>)
    ensures |b| == 4 * |v|
  {
    if v == [] then [] else ToBlob(v[..|v| - 1]) + WordBytes(v[|v| - 1])
  }

  function BlobWords(b: seq<byte>): Vector
    requires |b| % 4 == 0
    decreases |b|
  {
    if b == [] then [] else BlobWords(b[..|b| - 4]) + [BytesWord(b[|b| - 4..])]
  }

  function FromBlob(b: seq<byte>, dim: nat): Option<Vector> {
    if |b| != dim * 4 then None else Some(BlobWords(b))
  }

  method EncodeVector(v: Vector) returns (b: seq<byte>)
    ensures b == ToBlob(v)
  {
    b := [];
    for i := 0 to |v|
      invariant b == ToBlob(v[..i])
    {
      assert v[..i + 1][..i] == v[..i];
      b := b + WordBytes(v[i]);
    }
    assert v[..|v|] == v;
  }

  lemma WordRoundTrip(w: u32)
    ensures BytesWord(WordBytes(w)) == w
  {
    assert w == w % 256 + 256 * (w / 256);
    assert w / 256 == w / 256 % 256 + 256 * (w / 65536);
    assert w / 65536 == w / 65536 % 256 + 256 * (w / 16777216);
  }

  lemma EmptyBlob()
    ensures BlobWords([]) == []
  {
  }

  lemma BlobEnd(b: seq<byte>, w: seq<byte>)
    requires |b| % 4 == 0 && |w| == 4
    ensures BlobWords(b + w) == BlobWords(b) + [BytesWord(w)]
  {
    hide BytesWord;
    var c := b + w;
    assert c[..|c| - 4] == b && c[|c| - 4..] == w;
  }

  lemma {:induction false} BlobWordsInverse(v: Vector)
    ensures BlobWords(ToBlob(v)) == v
  {
    hide WordBytes, BytesWord, BlobWords;
    EmptyBlob();
    if v != [] {
      var init, last := v[..|v| - 1], v[|v| - 1];
      BlobWordsInverse(init);
      WordRoundTrip(last);
      BlobEnd(ToBlob(init), WordBytes(last));
      assert init + [last] == v;
    }
  }

  /** A stored vector reads back exactly with its own dimension, and with no other. */
  lemma BlobRoundTrip(v: Vector, dim: nat)
    ensures FromBlob(ToBlob(v), dim) == if dim == |v| then Some(v) else None
  {
    BlobWordsInverse(v);
  }

  lemma WordLayout(w: u32)
    ensures Little(WordBytes(w)) == w
  {
    WordRoundTrip(w);
  }

  /** Four bytes as a number, the least significant first. */
  function Little(b: seq<byte>): int
    requires |b| == 4
  {
    var b0: int, b1: int, b2: int, b3: int := b[0], b[1], b[2], b[3];
    b0 + 256 * b1 + 65536 * b2 + 16777216 * b3
  }

  lemma {:induction false} BlobAt(v: Vector, i: nat)
    requires i < |v|
    ensures ToBlob(v)[4 * i..4 * i + 4] == WordBytes(v[i])
  {
    hide WordBytes;
    var n := |v| - 1;
    var front := ToBlob(v[..n]);
    if i < n {
      BlobAt(v[..n], i);
      assert ToBlob(v)[4 * i..4 * i + 4] == front[4 * i..4 * i + 4];
    } else {
      assert ToBlob(v)[4 * n..4 * n + 4] == WordBytes(v[n]);
    }
  }

  /** The words of a vector stand one behind the other, each with its least significant byte first. */
  lemma BlobIsLittleEndian(v: Vector, i: nat)
    requires i < |v|
    ensures Little(ToBlob(v)[4 * i..4 * i + 4]) == v[i]
  {
    hide ToBlob, WordBytes;
    BlobAt(v, i);
    WordLayout(v[i]);
  }
}
