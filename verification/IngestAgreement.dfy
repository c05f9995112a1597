/** The incremental index against a rebuild, over runs that complete and runs that stop early. */
module IngestAgreement {
  import opened Text
  import opened RagIndex
  import Windows

  type RowMap = map<(string, nat), Row>

  // --- What a file's rows should be ---

  /** The rows of a path are exactly the pieces of the text, ordinals from 0, each with its embedding. */
  ghost predicate Holds(env: Env, rows: RowMap, path: string, text: string) {
    forall n: nat ::
      ((path, n) in rows <==> n < |Pieces(text)|)
      && ((path, n) in rows && n < |Pieces(text)| ==>
            rows[(path, n)].text == Pieces(text)[n] && rows[(path, n)].vec == env.embed(Pieces(text)[n]))
  }

  ghost predicate SameRowsAt(a: RowMap, b: RowMap, path: string) {
    forall n: nat :: ((path, n) in a <==> (path, n) in b) && ((path, n) in a && (path, n) in b ==> a[(path, n)] == b[(path, n)])
  }

  ghost predicate SameFileAt(x: Index, y: Index, path: string) {
    (path in x.files <==> path in y.files) && (path in x.files && path in y.files ==> x.files[path] == y.files[path])
  }

  ghost predicate Injective(env: Env) {
    forall s, t :: env.hash(s) == env.hash(t) ==> s == t
  }

  ghost predicate CommittedAt(env: Env, x: Index, path: string)
    requires path in x.files
  {
    exists text :: env.hash(text) == x.files[path].hash && Holds(env, x.rows, path, text)
  }

  /** Every recorded file has exactly the rows of the content its record was made for. */
  ghost predicate Committed(env: Env, x: Index) {
    forall p :: p in x.files ==> CommittedAt(env, x, p)
  }

  lemma {:induction false} FillAt(env: Env, rows: RowMap, path: string, pieces: seq<string>, n: nat, q: string, k: nat)
    requires n <= |pieces| && forall j: nat :: (path, j) !in rows
    ensures var f := Fill(env, rows, path, pieces, n);
            && (q == path ==> ((q, k) in f <==> k < n))
            && (q == path && k < n ==> f[(q, k)].text == pieces[k] && f[(q, k)].vec == env.embed(pieces[k]))
            && (q != path ==> ((q, k) in f <==> (q, k) in rows) && ((q, k) in rows ==> f[(q, k)] == rows[(q, k)]))
    decreases n
  {
    if n > 0 {
      FillAt(env, rows, path, pieces, n - 1, q, k);
    }
  }

  lemma FillStored(env: Env, rows: RowMap, path: string, pieces: seq<string>, n: nat)
    requires n <= |pieces| && forall j: nat :: (path, j) !in rows
    ensures Stored(env, Fill(env, rows, path, pieces, n), path, pieces, n)
  {
    hide Fill;
    forall j: nat
      ensures var f := Fill(env, rows, path, pieces, n);
              ((path, j) in f <==> j < n)
              && ((path, j) in f && j < n ==> f[(path, j)].text == pieces[j] && f[(path, j)].vec == env.embed(pieces[j]))
    {
      FillAt(env, rows, path, pieces, n, path, j);
    }
  }

  lemma DropAt(x: Index, path: string, q: string, k: nat)
    ensures (q, k) in Drop(x, path).rows <==> (q, k) in x.rows && q != path
    ensures (q, k) in Drop(x, path).rows ==> Drop(x, path).rows[(q, k)] == x.rows[(q, k)]
  {
  }

  // --- One file ---

  /** Other paths are not touched, whether the file completes or not. */
  lemma IndexFileElsewhere(env: Env, x: Index, path: string, f: File, now: int, budget: nat, q: string)
    requires q != path
    ensures var y := IndexFile(env, x, path, f, now, budget).index;
            SameRowsAt(y.rows, x.rows, q) && SameFileAt(y, x, q)
  {
    hide Fill, Pieces, Drop;
    var y := IndexFile(env, x, path, f, now, budget).index;
    var d := Drop(x, path);
    DropFiles(x, path);
    forall k: nat
      ensures ((q, k) in y.rows <==> (q, k) in x.rows) && ((q, k) in y.rows && (q, k) in x.rows ==> y.rows[(q, k)] == x.rows[(q, k)])
    {
      DropAt(x, path, q, k);
      NothingDropped(x, path);
      var pieces := Pieces(f.text);
      FillAt(env, d.rows, path, pieces, |pieces|, q, k);
      if EMBED_BATCH * budget <= |pieces| {
        FillAt(env, d.rows, path, pieces, EMBED_BATCH * budget, q, k);
      }
    }
  }

  lemma DropFiles(x: Index, path: string)
    ensures Drop(x, path).files == x.files - {path}
  {
  }

  lemma NothingDropped(x: Index, path: string)
    ensures forall j: nat :: (path, j) !in Drop(x, path).rows
  {
  }

  /** A completed file has exactly its pieces as rows, and rows only with a record. */
  lemma IndexFileHere(env: Env, x: Index, path: string, f: File, now: int, budget: nat)
    requires Injective(env) && Committed(env, x) && !IndexFile(env, x, path, f, now, budget).failed
    ensures var y := IndexFile(env, x, path, f, now, budget).index;
            && Holds(env, y.rows, path, f.text)
            && (path in y.files ==> y.files[path].hash == env.hash(f.text))
            && (path !in y.files ==> Pieces(f.text) == [])
  {
    hide Fill, Pieces, Drop;
    var y := IndexFile(env, x, path, f, now, budget).index;
    var pieces := Pieces(f.text);
    DropFiles(x, path);
    if Unchanged(env, x, path, f) {
      assert CommittedAt(env, x, path);
      var text :| env.hash(text) == x.files[path].hash && Holds(env, x.rows, path, text);
      assert text == f.text;
    } else {
      NothingDropped(x, path);
      var d := Drop(x, path);
      forall k: nat
        ensures (path, k) in y.rows <==> k < |pieces|
        ensures (path, k) in y.rows && k < |pieces| ==>
                  y.rows[(path, k)].text == pieces[k] && y.rows[(path, k)].vec == env.embed(pieces[k])
      {
        FillAt(env, d.rows, path, pieces, |pieces|, path, k);
      }
    }
  }

  /** The commit invariant survives every file, also one that stops the run. */
  lemma IndexFileCommits(env: Env, x: Index, path: string, f: File, now: int, budget: nat)
    requires Injective(env) && Committed(env, x)
    ensures Committed(env, IndexFile(env, x, path, f, now, budget).index)
  {
    hide IndexFile, Holds;
    var p := IndexFile(env, x, path, f, now, budget);
    var y := p.index;
    forall q | q in y.files
      ensures CommittedAt(env, y, q)
    {
      if q == path {
        if p.failed {
          FailedHasNoRecord(env, x, path, f, now, budget);
        } else {
          IndexFileHere(env, x, path, f, now, budget);
        }
      } else {
        IndexFileElsewhere(env, x, path, f, now, budget, q);
        assert CommittedAt(env, x, q);
        var text :| env.hash(text) == x.files[q].hash && Holds(env, x.rows, q, text);
        HoldsMoves(env, x.rows, y.rows, q, text);
      }
    }
  }

  lemma FailedHasNoRecord(env: Env, x: Index, path: string, f: File, now: int, budget: nat)
    requires IndexFile(env, x, path, f, now, budget).failed
    ensures path !in IndexFile(env, x, path, f, now, budget).index.files
  {
    hide Fill, Pieces;
  }

  lemma HoldsMoves(env: Env, a: RowMap, b: RowMap, path: string, text: string)
    requires Holds(env, a, path, text) && SameRowsAt(b, a, path)
    ensures Holds(env, b, path, text)
  {
    hide Pieces;
  }

  // --- All files of a run ---

  /** What one listed file does. */
  function OneEntry(env: Env, x: Index, e: Entry, budget: nat): Progress {
    if e.file.Some? then IndexFile(env, x, e.key, e.file.value, e.now, budget) else Progress(x, budget, 0, false)
  }

  lemma {:induction false} IndexFilesCommits(env: Env, x: Index, listing: seq<Entry>, budget: nat)
    requires Injective(env) && Committed(env, x)
    ensures Committed(env, IndexFiles(env, x, listing, budget).index)
    decreases |listing|
  {
    hide Committed, IndexFile, Injective;
    if listing != [] {
      var e := listing[0];
      var p := OneEntry(env, x, e, budget);
      if e.file.Some? {
        IndexFileCommits(env, x, e.key, e.file.value, e.now, budget);
      }
      if !p.failed {
        IndexFilesCommits(env, p.index, listing[1..], p.budget);
      }
    }
  }

  lemma {:induction false} IndexFilesElsewhere(env: Env, x: Index, listing: seq<Entry>, budget: nat, q: string)
    requires q !in Keys(listing)
    ensures var y := IndexFiles(env, x, listing, budget).index;
            SameRowsAt(y.rows, x.rows, q) && SameFileAt(y, x, q)
    decreases |listing|
  {
    hide IndexFile;
    if listing != [] {
      var e := listing[0];
      assert e.key in Keys(listing) && Keys(listing[1..]) <= Keys(listing);
      var p := OneEntry(env, x, e, budget);
      if e.file.Some? {
        IndexFileElsewhere(env, x, e.key, e.file.value, e.now, budget, q);
      }
      if !p.failed {
        IndexFilesElsewhere(env, p.index, listing[1..], p.budget, q);
        SameTransitive(IndexFiles(env, p.index, listing[1..], p.budget).index, p.index, x, q);
      }
    }
  }

  lemma SameTransitive(a: Index, b: Index, c: Index, q: string)
    requires SameRowsAt(a.rows, b.rows, q) && SameFileAt(a, b, q)
    requires SameRowsAt(b.rows, c.rows, q) && SameFileAt(b, c, q)
    ensures SameRowsAt(a.rows, c.rows, q) && SameFileAt(a, c, q)
  {
  }

  ghost predicate AllReadable(listing: seq<Entry>) {
    forall e :: e in listing ==> e.file.Some?
  }

  /** The content of the last listed file with this key. */
  function Latest(listing: seq<Entry>, key: string): File
    requires key in Keys(listing) && AllReadable(listing)
  {
    if key in Keys(listing[1..]) then Latest(listing[1..], key)
    else assert listing[0].key == key && listing[0] in listing; listing[0].file.value
  }

  /** After all files, every listed path holds its last content, and has rows only with a record. */
  lemma {:induction false} IndexFilesHere(env: Env, x: Index, listing: seq<Entry>, budget: nat, key: string)
    requires Injective(env) && Committed(env, x) && AllReadable(listing) && key in Keys(listing)
    requires !IndexFiles(env, x, listing, budget).failed
    ensures var y := IndexFiles(env, x, listing, budget).index;
            && Holds(env, y.rows, key, Latest(listing, key).text)
            && (key !in y.files ==> Pieces(Latest(listing, key).text) == [])
    decreases |listing|
  {
    hide Committed, IndexFile, Injective, Holds, Pieces;
    var e := listing[0];
    assert e in listing;
    var p := OneEntry(env, x, e, budget);
    IndexFileCommits(env, x, e.key, e.file.value, e.now, budget);
    var y := IndexFiles(env, p.index, listing[1..], p.budget).index;
    if key in Keys(listing[1..]) {
      IndexFilesHere(env, p.index, listing[1..], p.budget, key);
    } else {
      assert e.key == key;
      IndexFileHere(env, x, e.key, e.file.value, e.now, budget);
      IndexFilesElsewhere(env, p.index, listing[1..], p.budget, key);
      HoldsMoves(env, p.index.rows, y.rows, key, e.file.value.text);
    }
  }

  // --- The whole run against a rebuild ---

  /** The rows of the index are those of the listed files, and nothing else. */
  ghost predicate Reflects(env: Env, rows: RowMap, listing: seq<Entry>)
    requires AllReadable(listing)
  {
    && (forall p :: p in Keys(listing) ==> Holds(env, rows, p, Latest(listing, p).text))
    && (forall k :: k in rows ==> k.0 in Keys(listing))
  }

  lemma ReflectionUnique(env: Env, a: RowMap, b: RowMap, listing: seq<Entry>)
    requires AllReadable(listing) && Reflects(env, a, listing) && Reflects(env, b, listing)
    ensures a == b
  {
    hide Pieces, Latest, Keys;
    assert a.Keys == b.Keys by {
      forall k | k in a.Keys + b.Keys ensures k in a && k in b {
        assert k == (k.0, k.1);
        assert Holds(env, a, k.0, Latest(listing, k.0).text) && Holds(env, b, k.0, Latest(listing, k.0).text);
      }
    }
    forall k | k in a ensures a[k] == b[k] {
      assert k == (k.0, k.1);
      assert Holds(env, a, k.0, Latest(listing, k.0).text) && Holds(env, b, k.0, Latest(listing, k.0).text);
    }
  }

  /** Committed rows stay committed, and a run that completes leaves every listed file as its rows should be. */
  ghost predicate StoresListed(env: Env, before: Index, after: Index, listing: seq<Entry>, ok: bool) {
    Injective(env) && Committed(env, before) ==>
      && Committed(env, after)
      && (ok && AllReadable(listing) ==>
            forall key :: key in Keys(listing) ==> Holds(env, after.rows, key, Latest(listing, key).text))
  }

  lemma RunStores(env: Env, x: Index, listing: seq<Entry>, budget: nat)
    ensures var p := Ingest(env, x, listing, budget); StoresListed(env, x, p.index, listing, !p.failed)
  {
    hide Committed, Injective, IndexFiles, Prune, Holds, Keys, Latest;
    if Injective(env) && Committed(env, x) {
      IndexFilesCommits(env, x, listing, budget);
      PruneCommits(env, IndexFiles(env, x, listing, budget).index, Keys(listing));
      if !Ingest(env, x, listing, budget).failed && AllReadable(listing) {
        CompletedRun(env, x, listing, budget);
      }
    }
  }

  /** A row under a path that is neither recorded nor listed: the run cannot see it. */
  ghost predicate IsStray(x: Index, listing: seq<Entry>, k: (string, nat)) {
    k in x.rows && k.0 !in x.files && k.0 !in Keys(listing)
  }

  ghost predicate NoStrays(x: Index, listing: seq<Entry>) {
    forall k :: !IsStray(x, listing, k)
  }

  /** A completed run leaves exactly the listed files' rows and the strays. */
  lemma CompletedRun(env: Env, x: Index, listing: seq<Entry>, budget: nat)
    requires Injective(env) && Committed(env, x) && AllReadable(listing)
    requires !Ingest(env, x, listing, budget).failed
    ensures var rows := Ingest(env, x, listing, budget).index.rows;
            && (forall p :: p in Keys(listing) ==> Holds(env, rows, p, Latest(listing, p).text))
            && (forall k :: k in rows && k.0 !in Keys(listing) <==> IsStray(x, listing, k))
  {
    hide Committed, IndexFiles, Injective, Pieces, Latest, Keys;
    var y := IndexFiles(env, x, listing, budget).index;
    var z := Prune(y, Keys(listing));
    forall p | p in Keys(listing)
      ensures Holds(env, z.rows, p, Latest(listing, p).text)
    {
      IndexFilesHere(env, x, listing, budget, p);
      assert SameRowsAt(z.rows, y.rows, p);
      HoldsMoves(env, y.rows, z.rows, p, Latest(listing, p).text);
    }
    forall k
      ensures k in z.rows && k.0 !in Keys(listing) <==> IsStray(x, listing, k)
    {
      if k.0 !in Keys(listing) {
        IndexFilesElsewhere(env, x, listing, budget, k.0);
        assert k == (k.0, k.1);
      }
    }
  }

  /**
   * A completed run over readable files leaves the same rows as indexing them from nothing,
   * exactly when no row was left behind by a stopped run under a path that is no longer listed.
   */
  lemma AgreesWithRebuildIff(env: Env, x: Index, listing: seq<Entry>, budget: nat, rebuildBudget: nat)
    requires Injective(env) && Committed(env, x) && AllReadable(listing)
    requires !Ingest(env, x, listing, budget).failed && !Ingest(env, EMPTY, listing, rebuildBudget).failed
    ensures Ingest(env, x, listing, budget).index.rows == Ingest(env, EMPTY, listing, rebuildBudget).index.rows
            <==> NoStrays(x, listing)
  {
    hide Ingest, Injective, Holds, Latest, Keys;
    var a, b := Ingest(env, x, listing, budget).index.rows, Ingest(env, EMPTY, listing, rebuildBudget).index.rows;
    CompletedRun(env, x, listing, budget);
    CompletedRun(env, EMPTY, listing, rebuildBudget);
    assert forall k :: !IsStray(EMPTY, listing, k);
    if NoStrays(x, listing) {
      ReflectionUnique(env, a, b, listing);
    } else {
      var k :| IsStray(x, listing, k);
      assert k in a && k !in b;
    }
  }

  // --- Histories of runs ---

  datatype RunInput = RunInput(listing: seq<Entry>, budget: nat)

  /** The index after some runs from an empty database, each completed or stopped. */
  function After(env: Env, runs: seq<RunInput>): Index {
    if runs == [] then EMPTY
    else
      var last := runs[|runs| - 1];
      Ingest(env, After(env, runs[..|runs| - 1]), last.listing, last.budget).index
  }

  lemma PruneCommits(env: Env, x: Index, seen: set<string>)
    requires Committed(env, x)
    ensures Committed(env, Prune(x, seen))
  {
    hide Holds;
    var y := Prune(x, seen);
    forall p | p in y.files ensures CommittedAt(env, y, p) {
      assert CommittedAt(env, x, p);
      var text :| env.hash(text) == x.files[p].hash && Holds(env, x.rows, p, text);
      assert SameRowsAt(y.rows, x.rows, p);
      HoldsMoves(env, x.rows, y.rows, p, text);
    }
  }

  /** The commit invariant holds after every history, stopped runs included. */
  lemma {:induction false} EveryHistoryCommitted(env: Env, runs: seq<RunInput>)
    requires Injective(env)
    ensures Committed(env, After(env, runs))
  {
    hide Committed, Injective, IndexFiles, Prune;
    if runs == [] {
      EmptyCommitted(env);
    } else {
      var before, last := After(env, runs[..|runs| - 1]), runs[|runs| - 1];
      EveryHistoryCommitted(env, runs[..|runs| - 1]);
      IndexFilesCommits(env, before, last.listing, last.budget);
      PruneCommits(env, IndexFiles(env, before, last.listing, last.budget).index, Keys(last.listing));
    }
  }

  lemma EmptyCommitted(env: Env)
    ensures Committed(env, EMPTY)
  {
  }

  /** Every row belongs to a recorded file. */
  ghost predicate NoOrphans(x: Index) {
    forall k :: k in x.rows ==> k.0 in x.files
  }

  lemma {:induction false} FilesKeepOrphanless(env: Env, x: Index, listing: seq<Entry>, budget: nat)
    requires NoOrphans(x) && !IndexFiles(env, x, listing, budget).failed
    ensures NoOrphans(IndexFiles(env, x, listing, budget).index)
    decreases |listing|
  {
    hide IndexFile, NoOrphans;
    if listing != [] {
      var e := listing[0];
      var p := OneEntry(env, x, e, budget);
      if e.file.Some? {
        FileKeepsOrphanless(env, x, e.key, e.file.value, e.now, budget);
      }
      FilesKeepOrphanless(env, p.index, listing[1..], p.budget);
    }
  }

  lemma FileKeepsOrphanless(env: Env, x: Index, path: string, f: File, now: int, budget: nat)
    requires NoOrphans(x) && !IndexFile(env, x, path, f, now, budget).failed
    ensures NoOrphans(IndexFile(env, x, path, f, now, budget).index)
  {
    hide IndexFile;
    var y := IndexFile(env, x, path, f, now, budget).index;
    forall k | k in y.rows
      ensures k.0 in y.files
    {
      assert k == (k.0, k.1);
      if k.0 == path {
        RowsNeedRecord(env, x, path, f, now, budget);
      } else {
        IndexFileElsewhere(env, x, path, f, now, budget, k.0);
      }
    }
  }

  lemma RowsNeedRecord(env: Env, x: Index, path: string, f: File, now: int, budget: nat)
    requires !IndexFile(env, x, path, f, now, budget).failed
    ensures var y := IndexFile(env, x, path, f, now, budget).index;
            path !in y.files ==> forall k :: k in y.rows ==> k.0 != path
  {
    hide Fill, Pieces;
  }

  /** After completed runs only, whatever was unreadable in them, no row is an orphan. */
  lemma {:induction false} CompletedHistoryOrphanless(env: Env, runs: seq<RunInput>)
    requires AllCompleted(env, runs)
    ensures NoOrphans(After(env, runs))
  {
    hide NoOrphans, IndexFiles, Prune;
    if runs == [] {
      EmptyOrphanless();
    } else {
      var init, last := runs[..|runs| - 1], runs[|runs| - 1];
      forall i | 0 <= i < |init| ensures Completed(env, init, i) {
        assert Completed(env, runs, i);
        assert init[..i] == runs[..i];
      }
      CompletedHistoryOrphanless(env, init);
      assert Completed(env, runs, |runs| - 1);
      FilesKeepOrphanless(env, After(env, init), last.listing, last.budget);
      PruneOrphanless(IndexFiles(env, After(env, init), last.listing, last.budget).index, Keys(last.listing));
    }
  }

  lemma EmptyOrphanless()
    ensures NoOrphans(EMPTY)
  {
  }

  lemma PruneOrphanless(x: Index, seen: set<string>)
    requires NoOrphans(x)
    ensures NoOrphans(Prune(x, seen))
  {
  }

  ghost predicate Completed(env: Env, runs: seq<RunInput>, i: nat)
    requires i < |runs|
  {
    !Ingest(env, After(env, runs[..i]), runs[i].listing, runs[i].budget).failed
  }

  ghost predicate AllCompleted(env: Env, runs: seq<RunInput>) {
    forall i :: 0 <= i < |runs| ==> Completed(env, runs, i)
  }

  /** After any completed runs, one more over readable files equals a rebuild from nothing. */
  lemma IncrementalEqualsRebuild(env: Env, runs: seq<RunInput>, listing: seq<Entry>, budget: nat, rebuildBudget: nat)
    requires Injective(env) && AllCompleted(env, runs) && AllReadable(listing)
    requires !Ingest(env, After(env, runs), listing, budget).failed
    requires !Ingest(env, EMPTY, listing, rebuildBudget).failed
    ensures Ingest(env, After(env, runs), listing, budget).index.rows
            == Ingest(env, EMPTY, listing, rebuildBudget).index.rows
  {
    hide Ingest, After, AllCompleted, Injective, AllReadable, Committed;
    EveryHistoryCommitted(env, runs);
    CompletedHistoryOrphanless(env, runs);
    AgreesWithRebuildIff(env, After(env, runs), listing, budget, rebuildBudget);
  }

  // --- Running twice ---

  /** The same file, or two of which nothing is stored. */
  predicate Compatible(f: File, g: File) {
    f == g || (Pieces(f.text) == [] && Pieces(g.text) == [])
  }

  /** Readable entries with one key hold the same file, or none of them has any pieces. */
  ghost predicate Consistent(listing: seq<Entry>) {
    forall e, f :: e in listing && f in listing && e.key == f.key && e.file.Some? && f.file.Some? ==>
      Compatible(e.file.value, f.file.value)
  }

  /** The file needs nothing: its record matches, or it has no pieces and leaves no trace. */
  ghost predicate Settled(env: Env, x: Index, path: string, f: File) {
    || Unchanged(env, x, path, f)
    || (Pieces(f.text) == [] && path !in x.files && forall n: nat :: (path, n) !in x.rows)
  }

  lemma SettledIsSkipped(env: Env, x: Index, path: string, f: File, now: int, budget: nat)
    requires Settled(env, x, path, f)
    ensures IndexFile(env, x, path, f, now, budget) == Progress(x, budget, 0, false)
  {
    hide Pieces, Fill;
    if !Unchanged(env, x, path, f) {
      forall k | k in x.rows ensures k.0 != path {
        assert k == (k.0, k.1);
      }
      assert Drop(x, path).rows == x.rows && Drop(x, path).files == x.files;
    }
  }

  lemma IndexFileSettles(env: Env, x: Index, path: string, f: File, now: int, budget: nat)
    requires !IndexFile(env, x, path, f, now, budget).failed
    ensures Settled(env, IndexFile(env, x, path, f, now, budget).index, path, f)
  {
    hide Pieces, Fill;
  }

  lemma SettledElsewhere(env: Env, x: Index, y: Index, path: string, f: File)
    requires Settled(env, x, path, f) && SameRowsAt(y.rows, x.rows, path) && SameFileAt(y, x, path)
    ensures Settled(env, y, path, f)
  {
    hide Pieces;
  }

  ghost predicate AllSettled(env: Env, x: Index, listing: seq<Entry>) {
    forall e :: e in listing && e.file.Some? ==> Settled(env, x, e.key, e.file.value)
  }

  lemma OneEntryKeepsSettled(env: Env, x: Index, e: Entry, budget: nat, path: string, f: File)
    requires Settled(env, x, path, f) && (e.key == path && e.file.Some? ==> Compatible(e.file.value, f))
    ensures Settled(env, OneEntry(env, x, e, budget).index, path, f)
  {
    hide IndexFile, Settled, Pieces;
    if e.file.Some? {
      if e.key == path {
        if e.file.value == f {
          SettledIsSkipped(env, x, path, f, e.now, budget);
        } else {
          NothingStoredStaysSettled(env, x, path, e.file.value, f, e.now, budget);
        }
      } else {
        IndexFileElsewhere(env, x, e.key, e.file.value, e.now, budget, path);
        SettledElsewhere(env, x, OneEntry(env, x, e, budget).index, path, f);
      }
    }
  }

  lemma NothingStoredStaysSettled(env: Env, x: Index, path: string, g: File, f: File, now: int, budget: nat)
    requires Settled(env, x, path, f) && Pieces(f.text) == [] && Pieces(g.text) == []
    ensures Settled(env, IndexFile(env, x, path, g, now, budget).index, path, f)
  {
    hide Pieces, Fill;
  }

  lemma {:induction false} IndexFilesKeepSettled(env: Env, x: Index, listing: seq<Entry>, budget: nat, path: string, f: File)
    requires Settled(env, x, path, f)
    requires forall e :: e in listing && e.key == path && e.file.Some? ==> Compatible(e.file.value, f)
    ensures Settled(env, IndexFiles(env, x, listing, budget).index, path, f)
    decreases |listing|
  {
    hide IndexFile, Settled, Compatible;
    if listing != [] {
      var p := OneEntry(env, x, listing[0], budget);
      assert listing[0] in listing;
      OneEntryKeepsSettled(env, x, listing[0], budget, path, f);
      if !p.failed {
        IndexFilesKeepSettled(env, p.index, listing[1..], p.budget, path, f);
      }
    }
  }

  lemma {:induction false} IndexFilesSettle(env: Env, x: Index, listing: seq<Entry>, budget: nat)
    requires Consistent(listing) && !IndexFiles(env, x, listing, budget).failed
    ensures AllSettled(env, IndexFiles(env, x, listing, budget).index, listing)
    decreases |listing|
  {
    hide IndexFile, Settled, Compatible;
    if listing != [] {
      var e := listing[0];
      var p := OneEntry(env, x, e, budget);
      var rest := listing[1..];
      assert forall f :: f in listing <==> f == e || f in rest;
      IndexFilesSettle(env, p.index, rest, p.budget);
      if e.file.Some? {
        IndexFileSettles(env, x, e.key, e.file.value, e.now, budget);
        IndexFilesKeepSettled(env, p.index, rest, p.budget, e.key, e.file.value);
      }
    }
  }

  lemma {:induction false} SettledIsStable(env: Env, x: Index, listing: seq<Entry>, budget: nat)
    requires AllSettled(env, x, listing)
    ensures IndexFiles(env, x, listing, budget) == Progress(x, budget, 0, false)
    decreases |listing|
  {
    hide IndexFile, Settled;
    if listing != [] {
      var e := listing[0];
      assert e in listing;
      if e.file.Some? {
        SettledIsSkipped(env, x, e.key, e.file.value, e.now, budget);
      }
      SettledIsStable(env, x, listing[1..], budget);
    }
  }

  lemma PruneKeepsSettled(env: Env, x: Index, seen: set<string>, path: string, f: File)
    requires Settled(env, x, path, f) && path in seen
    ensures Settled(env, Prune(x, seen), path, f)
  {
    hide Pieces;
  }

  lemma PruneTwice(x: Index, seen: set<string>)
    ensures Prune(Prune(x, seen), seen) == Prune(x, seen)
  {
    var y := Prune(x, seen);
    assert Prune(y, seen).rows == y.rows && Prune(y, seen).files == y.files;
  }

  lemma ConsistentRunsTwice(env: Env, x: Index, listing: seq<Entry>, budget: nat, secondBudget: nat)
    requires Consistent(listing) && !Ingest(env, x, listing, budget).failed
    ensures var y := Ingest(env, x, listing, budget).index;
            Ingest(env, y, listing, secondBudget) == Progress(y, secondBudget, 0, false)
  {
    hide IndexFiles, Prune, Settled, Consistent;
    var files := IndexFiles(env, x, listing, budget).index;
    var y := Prune(files, Keys(listing));
    IndexFilesSettle(env, x, listing, budget);
    forall e | e in listing && e.file.Some?
      ensures Settled(env, y, e.key, e.file.value)
    {
      PruneKeepsSettled(env, files, Keys(listing), e.key, e.file.value);
    }
    SettledIsStable(env, y, listing, secondBudget);
    PruneTwice(files, Keys(listing));
  }

  /** One file that needs no embedding: skipped under a record that matches, or dropped for good. */
  lemma QuietFile(env: Env, x: Index, path: string, f: File, now: int, budget: nat)
    requires var p := IndexFile(env, x, path, f, now, budget); !p.failed && p.written == 0
    ensures var y := IndexFile(env, x, path, f, now, budget).index;
            if Unchanged(env, x, path, f) then y == x else Pieces(f.text) == [] && path !in y.files
  {
    hide Pieces, Fill;
  }

  /** The last readable file listed under a key. */
  function LastReadable(listing: seq<Entry>, key: string): Option<File> {
    if listing == [] then None
    else
      var later := LastReadable(listing[1..], key);
      if later.Some? then later else if listing[0].key == key then listing[0].file else None
  }

  /** A run that completes leaves no record of a key that does not match its last file. */
  lemma {:induction false} LastFileMatches(env: Env, x: Index, listing: seq<Entry>, budget: nat, path: string)
    requires !IndexFiles(env, x, listing, budget).failed
    ensures var y := IndexFiles(env, x, listing, budget).index;
            var last := LastReadable(listing, path);
            && (last.Some? && path in y.files ==> Unchanged(env, y, path, last.value))
            && (last.None? ==> SameFileAt(y, x, path))
    decreases |listing|
  {
    hide IndexFile, Pieces;
    if listing != [] {
      var e := listing[0];
      var p := OneEntry(env, x, e, budget);
      LastFileMatches(env, p.index, listing[1..], p.budget, path);
      if e.file.Some? {
        if e.key == path {
          IndexFileSettles(env, x, path, e.file.value, e.now, budget);
        } else {
          IndexFileElsewhere(env, x, e.key, e.file.value, e.now, budget, path);
        }
      }
    }
  }

  /**
   * A run that embeds nothing: every listed file with pieces matched its record before; a record that is
   * left was there before and matched every file listed under its key; and it is left when the last of
   * them has pieces.
   */
  lemma {:induction false} QuietRun(env: Env, x: Index, listing: seq<Entry>, budget: nat, path: string)
    requires var p := IndexFiles(env, x, listing, budget); !p.failed && p.written == 0
    ensures var y := IndexFiles(env, x, listing, budget).index;
            var last := LastReadable(listing, path);
            && (path in y.files ==>
                  && path in x.files && x.files[path] == y.files[path]
                  && forall e :: e in listing && e.key == path && e.file.Some? ==> Unchanged(env, x, path, e.file.value))
            && (forall e :: e in listing && e.key == path && e.file.Some? && Pieces(e.file.value.text) != [] ==>
                  Unchanged(env, x, path, e.file.value))
            && (last.Some? && Pieces(last.value.text) != [] ==> path in y.files)
            && (last.None? ==> SameFileAt(y, x, path))
    decreases |listing|
  {
    hide IndexFile, Pieces;
    if listing != [] {
      var e := listing[0];
      var p := OneEntry(env, x, e, budget);
      assert forall f :: f in listing <==> f == e || f in listing[1..];
      QuietRun(env, p.index, listing[1..], p.budget, path);
      if e.file.Some? {
        if e.key == path {
          QuietFile(env, x, path, e.file.value, e.now, budget);
        } else {
          IndexFileElsewhere(env, x, e.key, e.file.value, e.now, budget, path);
        }
      }
    }
  }

  lemma {:induction false} LastIsListed(listing: seq<Entry>, e: Entry)
    requires e in listing && e.file.Some?
    ensures LastReadable(listing, e.key).Some?
    ensures exists f :: f in listing && f.key == e.key && f.file == LastReadable(listing, e.key)
  {
    if e in listing[1..] {
      LastIsListed(listing[1..], e);
    } else {
      assert listing[0] == e;
      LastSomewhere(listing[1..], e.key);
    }
  }

  lemma {:induction false} LastSomewhere(listing: seq<Entry>, key: string)
    ensures LastReadable(listing, key).Some? ==>
              exists f :: f in listing && f.key == key && f.file == LastReadable(listing, key)
  {
    if listing != [] {
      LastSomewhere(listing[1..], key);
      assert listing[0] in listing;
    }
  }

  lemma SameRecordSameFile(env: Env, x: Index, path: string, f: File, g: File)
    requires Injective(env) && Unchanged(env, x, path, f) && Unchanged(env, x, path, g)
    ensures f == g
  {
  }

  /**
   * An immediate second run embeds nothing, and then changes nothing at all, exactly when the listing is
   * consistent.
   */
  lemma SecondRunDoesNothingIff(env: Env, x: Index, listing: seq<Entry>, budget: nat, secondBudget: nat)
    requires Injective(env) && !Ingest(env, x, listing, budget).failed
    ensures var y := Ingest(env, x, listing, budget).index;
            var second := Ingest(env, y, listing, secondBudget);
            && (!second.failed && second.written == 0 <==> Consistent(listing))
            && (Consistent(listing) ==> second == Progress(y, secondBudget, 0, false))
  {
    hide Injective, IndexFiles, Unchanged, Pieces, LastReadable, Compatible;
    var y := Ingest(env, x, listing, budget).index;
    var second := Ingest(env, y, listing, secondBudget);
    if Consistent(listing) {
      ConsistentRunsTwice(env, x, listing, budget, secondBudget);
    } else if !second.failed && second.written == 0 {
      var e, f :| e in listing && f in listing && e.key == f.key && e.file.Some? && f.file.Some?
                  && !Compatible(e.file.value, f.file.value);
      QuietAgain(env, x, listing, budget, secondBudget, e, f);
    }
  }

  lemma QuietAgain(env: Env, x: Index, listing: seq<Entry>, budget: nat, secondBudget: nat, e: Entry, f: Entry)
    requires Injective(env) && !Ingest(env, x, listing, budget).failed
    requires var second := Ingest(env, Ingest(env, x, listing, budget).index, listing, secondBudget);
             !second.failed && second.written == 0
    requires e in listing && f in listing && e.key == f.key && e.file.Some? && f.file.Some?
    ensures Compatible(e.file.value, f.file.value)
  {
    hide Injective, IndexFiles, Unchanged, Pieces, LastReadable;
    var path := e.key;
    var files := IndexFiles(env, x, listing, budget).index;
    var y := Ingest(env, x, listing, budget).index;
    LastFileMatches(env, x, listing, budget, path);
    QuietRun(env, y, listing, secondBudget, path);
    if Pieces(e.file.value.text) != [] {
      QuietPair(env, x, listing, budget, secondBudget, e, f);
    } else if Pieces(f.file.value.text) != [] {
      QuietPair(env, x, listing, budget, secondBudget, f, e);
    }
  }

  /** A file with pieces, and another with its key: both match the one record. */
  lemma QuietPair(env: Env, x: Index, listing: seq<Entry>, budget: nat, secondBudget: nat, e: Entry, f: Entry)
    requires Injective(env) && !Ingest(env, x, listing, budget).failed
    requires var second := Ingest(env, Ingest(env, x, listing, budget).index, listing, secondBudget);
             !second.failed && second.written == 0
    requires e in listing && f in listing && e.key == f.key && e.file.Some? && f.file.Some?
    requires Pieces(e.file.value.text) != []
    ensures e.file == f.file
  {
    hide Injective, IndexFiles, Pieces, LastReadable;
    var path := e.key;
    var files := IndexFiles(env, x, listing, budget).index;
    var y := Ingest(env, x, listing, budget).index;
    assert path in Keys(listing);
    LastIsListed(listing, e);
    LastFileMatches(env, x, listing, budget, path);
    QuietRun(env, y, listing, secondBudget, path);
    assert path in y.files && y.files[path] == files.files[path];
    SameRecordSameFile(env, y, path, e.file.value, LastReadable(listing, path).value);
    SameRecordSameFile(env, y, path, e.file.value, f.file.value);
  }

  /** Two files that are stored under one key: one of them is embedded again in every run. */
  lemma ClashEmbedsEveryRun(env: Env, x: Index, key: string, f: File, g: File, now: int, budget: nat)
    requires Injective(env) && f != g && Pieces(f.text) != [] && Pieces(g.text) != []
    ensures var p := Ingest(env, x, [Entry(key, Some(f), now), Entry(key, Some(g), now)], budget);
            p.failed || p.written > 0
  {
    hide Injective, IndexFiles, Unchanged, Pieces;
    var listing := [Entry(key, Some(f), now), Entry(key, Some(g), now)];
    var p := IndexFiles(env, x, listing, budget);
    if !p.failed && p.written == 0 {
      ClashIsNotQuiet(env, x, key, f, g, now, budget);
    }
  }

  lemma ClashIsNotQuiet(env: Env, x: Index, key: string, f: File, g: File, now: int, budget: nat)
    requires Injective(env) && f != g && Pieces(f.text) != [] && Pieces(g.text) != []
    ensures var p := IndexFiles(env, x, [Entry(key, Some(f), now), Entry(key, Some(g), now)], budget);
            p.failed || p.written > 0
  {
    hide Injective, IndexFile, Unchanged, Pieces;
    var a, b := Entry(key, Some(f), now), Entry(key, Some(g), now);
    var p := OneEntry(env, x, a, budget);
    assert [a, b][1..] == [b] && [b][1..] == [];
    var q := OneEntry(env, p.index, b, p.budget);
    if !p.failed && p.written == 0 && !q.failed && q.written == 0 {
      QuietFile(env, x, key, f, now, budget);
      QuietFile(env, p.index, key, g, now, p.budget);
      SameRecordSameFile(env, x, key, f, g);
    }
  }

  /** Such a run completes, on the empty database already: two short texts under one key. */
  lemma ClashWitness(env: Env, key: string, now: int)
    requires Injective(env)
    ensures var listing := [Entry(key, Some(File("a", 1, 0)), now), Entry(key, Some(File("b", 1, 0)), now)];
            var y := Ingest(env, EMPTY, listing, 2).index;
            && !Consistent(listing) && !Ingest(env, EMPTY, listing, 2).failed
            && (Ingest(env, y, listing, 2).failed || Ingest(env, y, listing, 2).written > 0)
  {
    hide Injective, Ingest;
    var f, g := File("a", 1, 0), File("b", 1, 0);
    var listing := [Entry(key, Some(f), now), Entry(key, Some(g), now)];
    OnePiece("a");
    OnePiece("b");
    assert listing[0] in listing && listing[1] in listing;
    assert !Compatible(f, g);
    TwoCallsEnough(env, key, f, g, now);
    SecondRunDoesNothingIff(env, EMPTY, listing, 2, 2);
  }

  lemma OnePiece(text: string)
    requires |text| == 1 && !IsBlank(text)
    ensures Pieces(text) == [text]
  {
    hide IsBlank;
    assert text[0..1] == text;
    assert Windows.WindowsFrom(text, CHUNK_CHARS, CHUNK_OVERLAP, 0) == [text];
    assert [text][1..] == [];
    assert Windows.NotBlank([text]) == [text] + Windows.NotBlank([]);
  }

  lemma TwoCallsEnough(env: Env, key: string, f: File, g: File, now: int)
    requires |Pieces(f.text)| == 1 && |Pieces(g.text)| == 1
    ensures !Ingest(env, EMPTY, [Entry(key, Some(f), now), Entry(key, Some(g), now)], 2).failed
  {
    hide IndexFile;
    var a, b := Entry(key, Some(f), now), Entry(key, Some(g), now);
    assert [a, b][1..] == [b] && [b][1..] == [];
    var p := OneEntry(env, EMPTY, a, 2);
    OneCall(env, EMPTY, key, f, now, 2);
    OneCall(env, p.index, key, g, now, p.budget);
    assert !IndexFiles(env, p.index, [b], p.budget).failed;
    assert !IndexFiles(env, EMPTY, [a, b], 2).failed;
  }

  lemma OneCall(env: Env, x: Index, path: string, f: File, now: int, budget: nat)
    requires |Pieces(f.text)| == 1 && budget > 0
    ensures var p := IndexFile(env, x, path, f, now, budget);
            !p.failed && (p.budget == budget || p.budget == budget - 1)
  {
    hide Pieces, Fill, Drop;
  }

  // --- Stopped runs ---

  /** Batching shows only in a stopped run: it leaves a multiple of the batch size of one file's rows. */
  lemma StoppedFile(env: Env, x: Index, path: string, f: File, now: int, budget: nat, n: nat)
    requires IndexFile(env, x, path, f, now, budget).failed
    ensures var p := IndexFile(env, x, path, f, now, budget);
            && p.written == 16 * budget < |Pieces(f.text)|
            && ((path, n) in p.index.rows <==> n < 16 * budget)
            && ((path, n) in p.index.rows ==> p.index.rows[(path, n)].text == Pieces(f.text)[n]
                                              && p.index.rows[(path, n)].vec == env.embed(Pieces(f.text)[n]))
  {
    hide Fill, Pieces, Drop;
    var pieces := Pieces(f.text);
    NothingDropped(x, path);
    if EMBED_BATCH * budget <= |pieces| {
      FillAt(env, Drop(x, path).rows, path, pieces, EMBED_BATCH * budget, path, n);
    }
  }

  /** A stopped run followed by the removal of its file does leave rows no later run removes. */
  lemma StoppedRunLeavesStray(env: Env, path: string, f: File, now: int)
    requires |Pieces(f.text)| > EMBED_BATCH
    ensures var x := After(env, [RunInput([Entry(path, Some(f), now)], 1)]);
            IsStray(x, [], (path, 0)) && Ingest(env, x, [], 0).index.rows != Ingest(env, EMPTY, [], 0).index.rows
  {
    hide Pieces, IndexFile;
    var listing := [Entry(path, Some(f), now)];
    var runs := [RunInput(listing, 1)];
    assert runs[..0] == [] && After(env, runs[..0]) == EMPTY;
    assert IndexFile(env, EMPTY, path, f, now, 1).failed by { NeedsTwoCalls(env, path, f, now); }
    StoppedFile(env, EMPTY, path, f, now, 1, 0);
    FailedHasNoRecord(env, EMPTY, path, f, now, 1);
    var x := After(env, runs);
    assert x == IndexFile(env, EMPTY, path, f, now, 1).index;
    assert (path, 0) in Ingest(env, x, [], 0).index.rows;
  }

  /** A row without a record stays as it is through every run that lists no readable file for it. */
  lemma {:induction false} StrayStays(env: Env, x: Index, listing: seq<Entry>, budget: nat, k: (string, nat))
    requires k in x.rows && k.0 !in x.files
    requires forall e :: e in listing && e.file.Some? ==> e.key != k.0
    ensures var y := Ingest(env, x, listing, budget).index;
            k in y.rows && y.rows[k] == x.rows[k] && k.0 !in y.files
  {
    hide IndexFiles;
    UnreadElsewhere(env, x, listing, budget, k.0);
    assert k == (k.0, k.1);
  }

  lemma {:induction false} UnreadElsewhere(env: Env, x: Index, listing: seq<Entry>, budget: nat, q: string)
    requires forall e :: e in listing && e.file.Some? ==> e.key != q
    ensures var y := IndexFiles(env, x, listing, budget).index;
            SameRowsAt(y.rows, x.rows, q) && SameFileAt(y, x, q)
    decreases |listing|
  {
    hide IndexFile;
    if listing != [] {
      var e := listing[0];
      assert e in listing;
      var p := OneEntry(env, x, e, budget);
      if e.file.Some? {
        IndexFileElsewhere(env, x, e.key, e.file.value, e.now, budget, q);
      }
      if !p.failed {
        UnreadElsewhere(env, p.index, listing[1..], p.budget, q);
        SameTransitive(IndexFiles(env, p.index, listing[1..], p.budget).index, p.index, x, q);
      }
    }
  }

  /** So it does for good: through any number of such runs, completed or stopped. */
  lemma {:induction false} StraysStayForGood(env: Env, before: seq<RunInput>, later: seq<RunInput>, k: (string, nat))
    requires var x := After(env, before); k in x.rows && k.0 !in x.files
    requires forall r :: r in later ==> forall e :: e in r.listing && e.file.Some? ==> e.key != k.0
    ensures var x, y := After(env, before), After(env, before + later);
            k in y.rows && y.rows[k] == x.rows[k] && k.0 !in y.files
    decreases |later|
  {
    hide Ingest;
    if later == [] {
      assert before + later == before;
    } else {
      var n := |later| - 1;
      var runs := before + later;
      StraysStayForGood(env, before, later[..n], k);
      assert runs[..|runs| - 1] == before + later[..n] && runs[|runs| - 1] == later[n];
      assert later[n] in later;
      StrayStays(env, After(env, before + later[..n]), later[n].listing, later[n].budget, k);
    }
  }

  lemma NeedsTwoCalls(env: Env, path: string, f: File, now: int)
    requires |Pieces(f.text)| > EMBED_BATCH
    ensures IndexFile(env, EMPTY, path, f, now, 1).failed
  {
    hide Fill, Pieces;
  }
}
