/**
 * The embeddings stage: read each stored filing text, cut it into
 * fixed-width chunks, embed every chunk, and write one row per chunk to
 * Postgres under the filing the text belongs to. A file that cannot be read,
 * embedded or named is dropped; a file whose filing is not in the database
 * fails the whole stage.
 */
module Embeddings {
  import opened Wrappers
  import opened Json
  import opened Runtime
  import SecKeys

  /** `chunk_text`'s default chunk size, in characters. */
  const ChunkSize: nat := 7200

  // ---------------------------------------------------------------------------
  // Chunking
  // ---------------------------------------------------------------------------

  function Min(a: nat, b: nat): nat {
    if a <= b then a else b
  }

  /**
   * `[text[i:i+size] for i in range(0, len(text), size)]`: the slices
   * starting at 0, size, 2·size, … while the start is inside the text.
   */
  function ChunkText(text: string, size: nat): (chunks: seq<string>)
    requires size > 0
    decreases |text|
  {
    if |text| == 0 then []
    else [text[..Min(size, |text|)]] + ChunkText(text[Min(size, |text|)..], size)
  }

  /** The `k`-th start of the `range`: `k * size`, spelt as repeated addition. */
  function Offset(k: nat, size: nat): nat {
    if k == 0 then 0 else Offset(k - 1, size) + size
  }

  /** The `k`-th chunk is the slice from the `k`-th start, `size` long or up to the end of the text. */
  lemma {:induction false} ChunkAt(text: string, size: nat, k: nat)
    requires size > 0 && k < |ChunkText(text, size)|
    ensures Offset(k, size) < |text|
    ensures ChunkText(text, size)[k] == text[Offset(k, size)..Min(Offset(k, size) + size, |text|)]
    decreases k
  {
    var rest := text[Min(size, |text|)..];
    assert ChunkText(text, size) == [text[..Min(size, |text|)]] + ChunkText(rest, size);
    if k > 0 {
      assert ChunkText(text, size)[k] == ChunkText(rest, size)[k - 1];
      ChunkAt(rest, size, k - 1);
      var lo := Offset(k - 1, size);
      assert |text| > size && rest == text[size..];
      assert Offset(k, size) == size + lo;
      SliceOfDrop(text, size, lo, Min(lo + size, |rest|));
    }
  }

  lemma SliceOfDrop(text: string, d: nat, a: nat, b: nat)
    requires d <= |text| && a <= b <= |text| - d
    ensures text[d..][a..b] == text[d + a..d + b]
  {
  }

  /**
   * There is one chunk per start of `range(0, len(text), size)`: the last
   * start lies inside the text and the next one does not.
   */
  lemma {:induction false} ChunkTextCount(text: string, size: nat)
    requires size > 0
    ensures Offset(|ChunkText(text, size)|, size) >= |text|
    ensures |ChunkText(text, size)| > 0 ==> Offset(|ChunkText(text, size)| - 1, size) < |text|
    decreases |text|
  {
    if |text| > 0 {
      var m := Min(size, |text|);
      ChunkTextCount(text[m..], size);
      OffsetShift(|ChunkText(text[m..], size)|, size);
      ChunkAt(text, size, |ChunkText(text, size)| - 1);
    }
  }

  lemma {:induction false} OffsetShift(k: nat, size: nat)
    ensures Offset(k + 1, size) == size + Offset(k, size)
    decreases k
  {
    if k > 0 {
      OffsetShift(k - 1, size);
    }
  }

  function Flatten(chunks: seq<string>): string {
    if |chunks| == 0 then "" else chunks[0] + Flatten(chunks[1..])
  }

  /**
   * The chunks are the text cut into pieces: joined back together they give
   * the text; each is non-empty and at most `size` long, all but the last are
   * exactly `size` long, and empty text has no chunks.
   */
  lemma {:induction false} ChunkTextPartition(text: string, size: nat)
    requires size > 0
    ensures Flatten(ChunkText(text, size)) == text
    ensures forall k :: 0 <= k < |ChunkText(text, size)| ==> 0 < |ChunkText(text, size)[k]| <= size
    ensures forall k :: 0 <= k < |ChunkText(text, size)| - 1 ==> |ChunkText(text, size)[k]| == size
    ensures |ChunkText(text, size)| == 0 <==> |text| == 0
    decreases |text|
  {
    if |text| > 0 {
      var m := Min(size, |text|);
      var chunks := ChunkText(text, size);
      ChunkTextPartition(text[m..], size);
      assert chunks[1..] == ChunkText(text[m..], size);
      assert text == text[..m] + text[m..];
      if |text| > size {
        assert |text[m..]| > 0;
      } else {
        assert |chunks| == 1;
      }
    }
  }

  // ---------------------------------------------------------------------------
  // One file
  // ---------------------------------------------------------------------------

  /**
   * The outside world of `process_file`: the stored text at a key (`None`
   * when the read or the UTF-8 decoding fails), and the embedding of a chunk
   * (`None` when the API call raises).
   */
  datatype Services = Services(read: string -> Option<string>, embed: string -> Option<Json>)

  /** What `process_file` returns for a file it could read, embed and name. */
  datatype FileResult = FileResult(cik: string, accession: string, form: string, embeddings: seq<Json>)

  /** The embeddings of the chunks, in chunk order, or `None` if any call fails. */
  function EmbedAll(chunks: seq<string>, embed: string -> Option<Json>): (r: Option<seq<Json>>)
    ensures r.Some? <==> forall k :: 0 <= k < |chunks| ==> embed(chunks[k]).Some?
    ensures r.Some? ==> |r.value| == |chunks| && forall k :: 0 <= k < |chunks| ==> r.value[k] == embed(chunks[k]).value
  {
    if |chunks| == 0 then Some([])
    else
      var first :- embed(chunks[0]);
      var rest :- EmbedAll(chunks[1..], embed);
      Some([first] + rest)
  }

  /**
   * `process_file`: any exception — a key that is not a string, a failed
   * read or embedding, or a key that does not split into CIK, form and
   * accession number — becomes `None`. The key is parsed only after every
   * chunk has been embedded.
   */
  function ProcessFile(key: Json, services: Services): (r: Option<FileResult>)
    ensures r.Some? ==> key.JStr? && SecKeys.ParseFilingKey(key.s).Some?
    ensures r.Some? ==> var ref := SecKeys.ParseFilingKey(key.s).value;
      r.value.cik == ref.cik && r.value.form == ref.form && r.value.accession == ref.accession
    ensures r.Some? ==> services.read(key.s).Some?
    ensures r.Some? ==> var chunks := ChunkText(services.read(key.s).value, ChunkSize);
      && |r.value.embeddings| == |chunks|
      && forall k :: 0 <= k < |chunks| ==>
           services.embed(chunks[k]).Some? && r.value.embeddings[k] == services.embed(chunks[k]).value
    ensures && key.JStr? && services.read(key.s).Some?
            && (forall chunk :: chunk in ChunkText(services.read(key.s).value, ChunkSize) ==> services.embed(chunk).Some?)
            && SecKeys.ParseFilingKey(key.s).Some?
            ==> r.Some?
  {
    if !key.JStr? then None
    else
      var content :- services.read(key.s);
      var embeddings :- EmbedAll(ChunkText(content, ChunkSize), services.embed);
      var ref :- SecKeys.ParseFilingKey(key.s);
      Some(FileResult(ref.cik, ref.accession, ref.form, embeddings))
  }

  /**
   * A key filings-ingest wrote names its filing back: for components free of
   * '/', '_' and '.', a file that can be read and embedded yields exactly the
   * CIK, form and accession number the key was made from.
   */
  lemma ProcessFileNamesFiling(cik: string, form: string, accession: string, services: Services)
    requires SecKeys.KeySafe(cik, form, accession)
    requires var key := SecKeys.FilingKey(cik, form, accession);
      services.read(key).Some? && EmbedAll(ChunkText(services.read(key).value, ChunkSize), services.embed).Some?
    ensures var r := ProcessFile(JStr(SecKeys.FilingKey(cik, form, accession)), services);
      r.Some? && r.value.cik == cik && r.value.form == form && r.value.accession == accession
  {
    SecKeys.ParseFilingKeyRoundTrip(cik, form, accession);
  }

  /** A key whose file name does not split into exactly two parts on '_' yields `None`, not an exception. */
  lemma ProcessFileRejectsBadName(key: string, services: Services)
    requires var parts := Text.Split(key, '/'); |parts| >= 3 && |Text.Split(parts[2], '_')| != 2
    ensures ProcessFile(JStr(key), services).None?
  {
  }

  // ---------------------------------------------------------------------------
  // Embedding rows
  // ---------------------------------------------------------------------------

  /** A `filing_embeddings` row. */
  datatype Row = Row(filingId: nat, chunkIndex: nat, embedding: Json)

  /** The `filing_embeddings` table: the embedding stored under each (filing_id, chunk_index). */
  type Table = map<(nat, nat), Json>

  /** `enumerate(result["embeddings"])` as rows of one filing. */
  function RowsOf(filingId: nat, embeddings: seq<Json>): (rows: seq<Row>)
    ensures |rows| == |embeddings|
    ensures forall k :: 0 <= k < |rows| ==> rows[k] == Row(filingId, k, embeddings[k])
  {
    seq(|embeddings|, k requires 0 <= k < |embeddings| => Row(filingId, k, embeddings[k]))
  }

  /** `executemany` of the upsert: the rows applied in order, a later row replacing an earlier one with the same key. */
  function Upsert(t: Table, rows: seq<Row>): Table {
    if |rows| == 0 then t
    else
      var last := rows[|rows| - 1];
      Upsert(t, rows[..|rows| - 1])[(last.filingId, last.chunkIndex) := last.embedding]
  }

  /** The entries a sequence of rows sets: for each key, the last row's embedding. */
  function Overrides(rows: seq<Row>): Table {
    if |rows| == 0 then map[]
    else
      var last := rows[|rows| - 1];
      Overrides(rows[..|rows| - 1])[(last.filingId, last.chunkIndex) := last.embedding]
  }

  lemma {:induction false} UpsertOverrides(t: Table, rows: seq<Row>)
    ensures Upsert(t, rows) == t + Overrides(rows)
    decreases |rows|
  {
    if |rows| > 0 {
      UpsertOverrides(t, rows[..|rows| - 1]);
    }
  }

  /**
   * The upsert is idempotent on a prefix: re-sending rows already written,
   * followed by new ones, leaves the same table as sending everything once.
   */
  lemma ResendPrefix(t: Table, done: seq<Row>, added: seq<Row>)
    ensures Upsert(Upsert(t, done), done + added) == Upsert(t, done + added)
  {
    UpsertOverrides(t, done);
    UpsertOverrides(t + Overrides(done), done + added);
    UpsertOverrides(t, done + added);
    assert (t + Overrides(done)) + Overrides(done + added) == t + Overrides(done + added) by {
      OverridesCover(done, added);
    }
  }

  lemma {:induction false} OverridesCover(done: seq<Row>, added: seq<Row>)
    ensures Overrides(done).Keys <= Overrides(done + added).Keys
    decreases |added|
  {
    if |added| > 0 {
      var all := done + added;
      assert all[..|all| - 1] == done + added[..|added| - 1];
      OverridesCover(done, added[..|added| - 1]);
    } else {
      assert done + added == done;
    }
  }

  /** A key set by exactly one row holds that row's embedding. */
  lemma {:induction false} OverridesUnique(rows: seq<Row>, j: nat)
    requires j < |rows|
    requires forall i :: 0 <= i < |rows| && i != j ==>
      (rows[i].filingId, rows[i].chunkIndex) != (rows[j].filingId, rows[j].chunkIndex)
    ensures (rows[j].filingId, rows[j].chunkIndex) in Overrides(rows)
    ensures Overrides(rows)[(rows[j].filingId, rows[j].chunkIndex)] == rows[j].embedding
    decreases |rows|
  {
    if j < |rows| - 1 {
      OverridesUnique(rows[..|rows| - 1], j);
    }
  }

  // ---------------------------------------------------------------------------
  // Storing the results
  // ---------------------------------------------------------------------------

  /** The filing the `UPDATE … RETURNING id` matches for a (cik, accession number), if any. */
  type Filings = (string, string) -> Option<nat>

  /** The message of `None[0]` when `fetchone()` finds no filing. */
  const NoFiling := "'NoneType' object is not subscriptable"

  /** The storing loop's state: the never-reset `embedding_batch` and the table as the open transaction sees it. */
  datatype Batch = Batch(rows: seq<Row>, table: Table)

  /**
   * The storing loop: for each result, look its filing up, append its rows
   * to the batch and upsert the whole batch again. `None` when a filing is
   * missing, which raises TypeError.
   */
  function StoreAll(results: seq<FileResult>, filings: Filings, b: Batch): (r: Option<Batch>)
    ensures r.Some? <==> forall i :: 0 <= i < |results| ==> filings(results[i].cik, results[i].accession).Some?
    decreases |results|
  {
    if |results| == 0 then Some(b)
    else
      var id :- filings(results[0].cik, results[0].accession);
      var rows := b.rows + RowsOf(id, results[0].embeddings);
      StoreAll(results[1..], filings, Batch(rows, Upsert(b.table, rows)))
  }

  /** Every row the results produce, in order. */
  function AllRows(results: seq<FileResult>, filings: Filings): seq<Row>
    requires forall i :: 0 <= i < |results| ==> filings(results[i].cik, results[i].accession).Some?
  {
    if |results| == 0 then []
    else RowsOf(filings(results[0].cik, results[0].accession).value, results[0].embeddings) + AllRows(results[1..], filings)
  }

  /**
   * Re-sending the growing batch on every iteration changes nothing: the
   * table the loop leaves equals one upsert of every row, once.
   */
  lemma {:induction false} StoreAllOnce(results: seq<FileResult>, filings: Filings, t: Table, done: seq<Row>)
    requires forall i :: 0 <= i < |results| ==> filings(results[i].cik, results[i].accession).Some?
    ensures StoreAll(results, filings, Batch(done, Upsert(t, done))).value ==
      Batch(done + AllRows(results, filings), Upsert(t, done + AllRows(results, filings)))
    decreases |results|
  {
    if |results| == 0 {
      assert done + [] == done;
    } else {
      var mine := RowsOf(filings(results[0].cik, results[0].accession).value, results[0].embeddings);
      var rows := done + mine;
      StoreAllStep(results, filings, t, done);
      StoreAllOnce(results[1..], filings, t, rows);
      var tail := AllRows(results[1..], filings);
      assert AllRows(results, filings) == mine + tail;
      assert rows + tail == done + (mine + tail);
    }
  }

  /** One iteration of the storing loop, with the batch re-sent in full. */
  lemma StoreAllStep(results: seq<FileResult>, filings: Filings, t: Table, done: seq<Row>)
    requires 0 < |results| && filings(results[0].cik, results[0].accession).Some?
    ensures var rows := done + RowsOf(filings(results[0].cik, results[0].accession).value, results[0].embeddings);
      StoreAll(results, filings, Batch(done, Upsert(t, done))) == StoreAll(results[1..], filings, Batch(rows, Upsert(t, rows)))
  {
    var rows := done + RowsOf(filings(results[0].cik, results[0].accession).value, results[0].embeddings);
    ResendPrefix(t, done, rows[|done|..]);
    assert done + rows[|done|..] == rows;
  }

  // ---------------------------------------------------------------------------
  // Which rows the table ends up with
  // ---------------------------------------------------------------------------

  lemma {:induction false} OverridesAppend(a: seq<Row>, b: seq<Row>)
    ensures Overrides(a + b) == Overrides(a) + Overrides(b)
    decreases |b|
  {
    if |b| == 0 {
      assert a + b == a;
    } else {
      var ab := a + b;
      assert ab[..|ab| - 1] == a + b[..|b| - 1];
      assert ab[|ab| - 1] == b[|b| - 1];
      OverridesAppend(a, b[..|b| - 1]);
    }
  }

  lemma {:induction false} OverridesKeys(rows: seq<Row>)
    ensures forall key :: key in Overrides(rows) ==> exists j :: 0 <= j < |rows| && key == (rows[j].filingId, rows[j].chunkIndex)
    decreases |rows|
  {
    if |rows| > 0 {
      var init := rows[..|rows| - 1];
      OverridesKeys(init);
      forall key | key in Overrides(rows)
        ensures exists j :: 0 <= j < |rows| && key == (rows[j].filingId, rows[j].chunkIndex)
      {
        if key in Overrides(init) {
          var j :| 0 <= j < |init| && key == (init[j].filingId, init[j].chunkIndex);
          assert rows[j] == init[j];
        } else {
          assert key == (rows[|rows| - 1].filingId, rows[|rows| - 1].chunkIndex);
        }
      }
    }
  }

  /** The filing each result's rows go under. */
  function FilingOf(r: FileResult, filings: Filings): Option<nat> {
    filings(r.cik, r.accession)
  }

  predicate AllFound(results: seq<FileResult>, filings: Filings) {
    forall i :: 0 <= i < |results| ==> FilingOf(results[i], filings).Some?
  }

  /** No two results go under the same filing. */
  predicate DistinctFilings(results: seq<FileResult>, filings: Filings)
    requires AllFound(results, filings)
  {
    forall p, q :: 0 <= p < q < |results| ==> FilingOf(results[p], filings).value != FilingOf(results[q], filings).value
  }

  /** The filings a sequence of results goes under. */
  function FilingIds(results: seq<FileResult>, filings: Filings): set<nat>
    requires AllFound(results, filings)
  {
    set p | 0 <= p < |results| :: FilingOf(results[p], filings).value
  }

  lemma {:induction false} AllRowsFilings(results: seq<FileResult>, filings: Filings)
    requires AllFound(results, filings)
    ensures forall row :: row in AllRows(results, filings) ==> row.filingId in FilingIds(results, filings)
    decreases |results|
  {
    if |results| > 0 {
      var tail := results[1..];
      AllRowsFilings(tail, filings);
      var mine := RowsOf(FilingOf(results[0], filings).value, results[0].embeddings);
      assert AllRows(results, filings) == mine + AllRows(tail, filings);
      forall p | 0 <= p < |tail|
        ensures FilingOf(tail[p], filings).value in FilingIds(results, filings)
      {
        assert tail[p] == results[p + 1];
      }
      assert FilingIds(tail, filings) <= FilingIds(results, filings);
      assert FilingOf(results[0], filings).value in FilingIds(results, filings);
    }
  }

  /**
   * With every result under a filing of its own, the table holds, for each
   * result and each of its chunks k, the chunk's embedding under
   * (filing_id, k) — whatever order the results were stored in.
   */
  lemma {:induction false} OverridesOfResults(results: seq<FileResult>, filings: Filings, p: nat, k: nat)
    requires AllFound(results, filings) && DistinctFilings(results, filings)
    requires p < |results| && k < |results[p].embeddings|
    ensures var key := (FilingOf(results[p], filings).value, k);
      key in Overrides(AllRows(results, filings)) &&
      Overrides(AllRows(results, filings))[key] == results[p].embeddings[k]
    decreases |results|
  {
    if p == 0 {
      FirstResultKept(results, filings, k);
    } else {
      var tail := results[1..];
      assert results[p] == tail[p - 1];
      OverridesOfResults(tail, filings, p - 1, k);
      LaterResultKept(results, filings, p, k);
    }
  }

  /** The first result's chunks survive the rows of the results after it, which go under other filings. */
  lemma FirstResultKept(results: seq<FileResult>, filings: Filings, k: nat)
    requires AllFound(results, filings) && DistinctFilings(results, filings)
    requires 0 < |results| && k < |results[0].embeddings|
    ensures var key := (FilingOf(results[0], filings).value, k);
      key in Overrides(AllRows(results, filings)) &&
      Overrides(AllRows(results, filings))[key] == results[0].embeddings[k]
  {
    var tail := results[1..];
    var id := FilingOf(results[0], filings).value;
    var mine := RowsOf(id, results[0].embeddings);
    var rest := AllRows(tail, filings);
    assert AllRows(results, filings) == mine + rest;
    OverridesAppend(mine, rest);
    OverridesUnique(mine, k);
    OverridesKeys(rest);
    AllRowsFilings(tail, filings);
    forall key | key in Overrides(rest)
      ensures key.0 != id
    {
      var j :| 0 <= j < |rest| && key == (rest[j].filingId, rest[j].chunkIndex);
      assert rest[j] in rest;
      var q :| 0 <= q < |tail| && rest[j].filingId == FilingOf(tail[q], filings).value;
      assert tail[q] == results[q + 1];
    }
  }

  /** What the later results' rows set is kept in front of the first result's rows. */
  lemma LaterResultKept(results: seq<FileResult>, filings: Filings, p: nat, k: nat)
    requires AllFound(results, filings)
    requires 0 < p < |results| && k < |results[p].embeddings|
    requires var key := (FilingOf(results[p], filings).value, k);
      key in Overrides(AllRows(results[1..], filings)) &&
      Overrides(AllRows(results[1..], filings))[key] == results[p].embeddings[k]
    ensures var key := (FilingOf(results[p], filings).value, k);
      key in Overrides(AllRows(results, filings)) &&
      Overrides(AllRows(results, filings))[key] == results[p].embeddings[k]
  {
    var mine := RowsOf(FilingOf(results[0], filings).value, results[0].embeddings);
    var rest := AllRows(results[1..], filings);
    assert AllRows(results, filings) == mine + rest;
    OverridesAppend(mine, rest);
  }

  // ---------------------------------------------------------------------------
  // The handler
  // ---------------------------------------------------------------------------

  /** The results that are not `None`, in order. */
  function Successes(outcomes: seq<Option<FileResult>>): (s: seq<FileResult>)
    ensures |s| <= |outcomes|
    ensures forall r :: r in s <==> Some(r) in outcomes
  {
    if |outcomes| == 0 then []
    else
      var last := outcomes[|outcomes| - 1];
      Successes(outcomes[..|outcomes| - 1]) + (if last.Some? then [last.value] else [])
  }

  /** How many of the files were processed. */
  function CountSome(outcomes: seq<Option<FileResult>>): nat {
    |set i | 0 <= i < |outcomes| && outcomes[i].Some?|
  }

  function Outcomes(keys: seq<Json>, services: Services): (os: seq<Option<FileResult>>)
    ensures |os| == |keys| && forall i :: 0 <= i < |keys| ==> os[i] == ProcessFile(keys[i], services)
  {
    seq(|keys|, i requires 0 <= i < |keys| => ProcessFile(keys[i], services))
  }

  /**
   * The order `as_completed` yields the results in: any rearrangement of
   * them, each exactly once.
   */
  type Arrangement = seq<FileResult> -> seq<FileResult>

  ghost predicate Rearranges(arrange: Arrangement) {
    forall rs :: multiset(arrange(rs)) == multiset(rs)
  }

  datatype Invocation = Invocation(table: Table, exit: Exit)

  /**
   * The handler. `connect` and `commit` are `None` when those calls succeed
   * and carry the `psycopg2.Error` message when they raise; `table` is the
   * `filing_embeddings` table before the run.
   */
  function Handle(event: Json, services: Services, filings: Filings, arrange: Arrangement,
                  connect: Option<string>, commit: Option<string>, table: Table): (r: Invocation)
    requires Rearranges(arrange)
    ensures r.exit.Raise? ==> r.table == table && r.exit.errorType == "Exception"
  {
    if connect.Some? then Invocation(table, Wrap("DatabaseConnectionError", connect.value))
    else match GetOr(event, "file_names", JArr([]))
      case Raise(_, message) => Invocation(table, Wrap("InternalServerError", message))
      case Return(list) =>
        match Iterate(list)
        case None => Invocation(table, Wrap("InternalServerError", "object of type '" + TypeName(list) + "' has no len()"))
        case Some(keys) =>
          var results := arrange(Successes(Outcomes(keys, services)));
          match StoreAll(results, filings, Batch([], table))
          case None => Invocation(table, Wrap("InternalServerError", NoFiling))
          case Some(stored) =>
            if commit.Some? then Invocation(table, Wrap("DatabaseConnectionError", commit.value))
            else Invocation(stored.table, Return(JObj(map["files_processed" := JNum(|results|)])))
  }

  lemma {:induction false} SuccessesCount(outcomes: seq<Option<FileResult>>)
    ensures |Successes(outcomes)| == CountSome(outcomes)
    decreases |outcomes|
  {
    if |outcomes| > 0 {
      var n := |outcomes| - 1;
      SuccessesCount(outcomes[..n]);
      CountSomeStep(outcomes);
      if outcomes[n].Some? {
        assert Successes(outcomes) == Successes(outcomes[..n]) + [outcomes[n].value];
      } else {
        assert Successes(outcomes) == Successes(outcomes[..n]) + [];
      }
    }
  }

  /** Counting the processed files one more file at a time. */
  lemma CountSomeStep(outcomes: seq<Option<FileResult>>)
    requires |outcomes| > 0
    ensures var n := |outcomes| - 1;
      CountSome(outcomes) == CountSome(outcomes[..n]) + (if outcomes[n].Some? then 1 else 0)
  {
    var n := |outcomes| - 1;
    var init := outcomes[..n];
    var all := set i | 0 <= i < |outcomes| && outcomes[i].Some?;
    var before := set i | 0 <= i < |init| && init[i].Some?;
    var here := if outcomes[n].Some? then {n} else {};
    forall i ensures i in all <==> i in before + here {
      if 0 <= i < n {
        assert init[i] == outcomes[i];
      }
    }
    assert all == before + here;
    assert before * here == {};
  }

  /**
   * A run either fails — leaving the table as it was — or reports as
   * processed exactly the number of files that were read, embedded and
   * named, and leaves the table as one upsert of all their rows.
   */
  lemma HandleProcessed(keys: seq<Json>, services: Services, filings: Filings, arrange: Arrangement, table: Table)
    requires Rearranges(arrange)
    ensures var r := Handle(JObj(map["file_names" := JArr(keys)]), services, filings, arrange, None, None, table);
      var results := arrange(Successes(Outcomes(keys, services)));
      && (r.exit.Return? <==> AllFound(results, filings))
      && (r.exit.Return? ==> r.exit.value == JObj(map["files_processed" := JNum(CountSome(Outcomes(keys, services)))]))
      && (r.exit.Return? ==> r.table == Upsert(table, AllRows(results, filings)))
      && (r.exit.Raise? ==> r.exit == Wrap("InternalServerError", NoFiling) && r.table == table)
  {
    HandleList(keys, services, filings, arrange, table);
    var successes := Successes(Outcomes(keys, services));
    var results := arrange(successes);
    assert |results| == |multiset(results)| == |multiset(successes)| == |successes|;
    SuccessesCount(Outcomes(keys, services));
    if AllFound(results, filings) {
      StoreAllOnce(results, filings, table, []);
      assert [] + AllRows(results, filings) == AllRows(results, filings);
    }
  }

  /** With a list of file names, no connection or commit error: the storing loop decides the outcome. */
  lemma HandleList(keys: seq<Json>, services: Services, filings: Filings, arrange: Arrangement, table: Table)
    requires Rearranges(arrange)
    ensures var results := arrange(Successes(Outcomes(keys, services)));
      Handle(JObj(map["file_names" := JArr(keys)]), services, filings, arrange, None, None, table) ==
        match StoreAll(results, filings, Batch([], table))
        case None => Invocation(table, Wrap("InternalServerError", NoFiling))
        case Some(stored) => Invocation(stored.table, Return(JObj(map["files_processed" := JNum(|results|)])))
  {
    var event := JObj(map["file_names" := JArr(keys)]);
    assert GetOr(event, "file_names", JArr([])) == Return(JArr(keys));
  }

  /**
   * Every successful file's embeddings end up in the table under its filing,
   * chunk by chunk, whenever no two files belong to the same filing.
   */
  lemma HandleStoresEmbeddings(keys: seq<Json>, services: Services, filings: Filings, arrange: Arrangement, table: Table,
                               r: FileResult, k: nat)
    requires Rearranges(arrange)
    requires var results := arrange(Successes(Outcomes(keys, services)));
      AllFound(results, filings) && DistinctFilings(results, filings)
    requires Some(r) in Outcomes(keys, services) && k < |r.embeddings|
    requires FilingOf(r, filings).Some?
    ensures var out := Handle(JObj(map["file_names" := JArr(keys)]), services, filings, arrange, None, None, table);
      var key := (FilingOf(r, filings).value, k);
      out.exit.Return? && key in out.table && out.table[key] == r.embeddings[k]
  {
    HandleProcessed(keys, services, filings, arrange, table);
    var successes := Successes(Outcomes(keys, services));
    var results := arrange(successes);
    assert r in successes;
    assert r in multiset(successes);
    assert r in results;
    var p :| 0 <= p < |results| && results[p] == r;
    UpsertOfResults(table, results, filings, p, k);
  }

  lemma UpsertOfResults(table: Table, results: seq<FileResult>, filings: Filings, p: nat, k: nat)
    requires AllFound(results, filings) && DistinctFilings(results, filings)
    requires p < |results| && k < |results[p].embeddings|
    ensures var key := (FilingOf(results[p], filings).value, k);
      key in Upsert(table, AllRows(results, filings)) &&
      Upsert(table, AllRows(results, filings))[key] == results[p].embeddings[k]
  {
    OverridesOfResults(results, filings, p, k);
    UpsertOverrides(table, AllRows(results, filings));
  }

  /** A connection failure is a DatabaseConnectionError and touches nothing. */
  lemma ConnectFailure(event: Json, services: Services, filings: Filings, arrange: Arrangement, message: string, commit: Option<string>, table: Table)
    requires Rearranges(arrange)
    ensures Handle(event, services, filings, arrange, Some(message), commit, table) ==
      Invocation(table, Wrap("DatabaseConnectionError", message))
  {
  }
}
