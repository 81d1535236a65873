/**
 * The filings-ingest stage: read the filings company-proc recorded, fetch
 * each one's document, strip it to plain text, store the text and announce
 * it on the sentiment queue tagged with one batch id minted for the run. The
 * result lists the stored files, the failed ones and the batch id the
 * completion barrier waits on.
 */
module FilingsIngest {
  import opened Wrappers
  import opened Json
  import opened Runtime
  import Markup
  import SecKeys
  import Text

  /** One row of the `company_filings` query. */
  datatype Row = Row(cik: string, accession: string, form: string, archiveUrl: string)

  /** The result of the query: the rows, or the message of whatever the connection or query raised. */
  datatype Query = Rows(rows: seq<Row>) | QueryError(message: string)

  /** The queue message announcing one stored file. */
  datatype MessageBody = MessageBody(bucket: string, key: string, cik: string, accession: string, form: string)

  /** What the stage does to the outside world, in order. */
  datatype Effect =
    | Fetch(url: string)                          // `requests.get` of the filing document
    | Store(key: string, text: string)            // `put_object` of the cleaned text
    | Send(body: MessageBody, batchId: string)    // `send_message` with the batch_id attribute

  /**
   * The outside world: EDGAR's document at a URL (`None` when the request
   * fails, returns an error status or is not UTF-8), whether the store or the
   * send of the filing at a given position raises, and `html.unescape`.
   */
  datatype Env = Env(
    fetch: string -> Option<string>,
    storeFails: nat -> bool,
    sendFails: nat -> bool,
    unescape: string -> string)

  /** Text as the stage stores it: single spaces between non-whitespace, nothing at the ends. */
  predicate CleanText(text: string) {
    Markup.Collapsed(text) && (|text| > 0 ==> !Markup.IsSpace(text[0]) && !Markup.IsSpace(text[|text| - 1]))
  }

  /** The text stored for a fetched document: tags stripped, whitespace collapsed and trimmed. */
  function Clean(env: Env, document: string): string {
    Markup.CollapseWhitespace(Markup.StripTags(env.unescape(document)))
  }

  /**
   * Cleaned text is the words of the unescaped, tag-stripped document joined
   * by single spaces: it has single spaces between non-whitespace and nothing
   * at either end, and keeps the non-whitespace characters in order.
   */
  lemma CleanShape(env: Env, document: string)
    ensures Clean(env, document) == Text.Join(Markup.Words(Markup.StripTags(env.unescape(document))), ' ')
    ensures CleanText(Clean(env, document))
    ensures Markup.Visible(Clean(env, document)) == Markup.Visible(Markup.StripTags(env.unescape(document)))
  {
    var stripped := Markup.StripTags(env.unescape(document));
    Markup.CollapseWhitespaceShape(stripped);
    Markup.CollapseWhitespaceWords(stripped);
  }

  /** The object key of one filing's text. */
  function KeyOf(row: Row): string {
    SecKeys.FilingKey(row.cik, row.form, row.accession)
  }

  /** The stage's cleaning, as a function value the loop is parameterised by. */
  function Cleaner(env: Env): string -> string {
    document => Clean(env, document)
  }

  /**
   * One filing's pass through the body of the inner `try`. It either fails
   * before `file_name` is assigned (the fetch), fails after it (the store or
   * the send), or completes.
   */
  datatype Attempt =
    | NotFetched(effects: seq<Effect>)
    | Failed(effects: seq<Effect>)
    | Delivered(effects: seq<Effect>)

  function Visit(row: Row, i: nat, env: Env, clean: string -> string, bucket: string, batchId: string): (a: Attempt)
    ensures |a.effects| >= 1 && a.effects[0] == Fetch(row.archiveUrl)
    ensures a.NotFetched? <==> env.fetch(row.archiveUrl).None?
    ensures a.Delivered? <==> env.fetch(row.archiveUrl).Some? && !env.storeFails(i) && !env.sendFails(i)
    ensures !a.NotFetched? ==> |a.effects| >= 2 && a.effects[1] == Store(KeyOf(row), clean(env.fetch(row.archiveUrl).value))
    ensures a.Delivered? ==> |a.effects| == 3
    ensures a.Delivered? ==> a.effects[2] == Send(MessageBody(bucket, KeyOf(row), row.cik, row.accession, row.form), batchId)
  {
    match env.fetch(row.archiveUrl)
    case None => NotFetched([Fetch(row.archiveUrl)])
    case Some(document) =>
      var stored := [Fetch(row.archiveUrl), Store(KeyOf(row), clean(document))];
      if env.storeFails(i) then Failed(stored)
      else
        var sent := stored + [Send(MessageBody(bucket, KeyOf(row), row.cik, row.accession, row.form), batchId)];
        if env.sendFails(i) then Failed(sent) else Delivered(sent)
  }

  /** The loop's accumulated state. */
  datatype Loop = Loop(effects: seq<Effect>, fileNames: seq<string>, failedFiles: seq<string>)

  /**
   * The loop over the filings from position `i`, with every failure recorded
   * under the failing filing's own key.
   */
  function Ingest(rows: seq<Row>, i: nat, env: Env, clean: string -> string, bucket: string, batchId: string): (l: Loop)
    requires i <= |rows|
    ensures |l.fileNames| + |l.failedFiles| == |rows| - i
    decreases |rows| - i
  {
    if i == |rows| then Loop([], [], [])
    else
      var rest := Ingest(rows, i + 1, env, clean, bucket, batchId);
      var a := Visit(rows[i], i, env, clean, bucket, batchId);
      if a.Delivered? then Loop(a.effects + rest.effects, [KeyOf(rows[i])] + rest.fileNames, rest.failedFiles)
      else Loop(a.effects + rest.effects, rest.fileNames, [KeyOf(rows[i])] + rest.failedFiles)
  }

  /** The stage's result document. */
  function Output(batchId: string, fileNames: seq<string>, failedFiles: seq<string>): Json {
    JObj(map[
      "batch_id" := JStr(batchId),
      "file_names" := JArr(seq(|fileNames|, i requires 0 <= i < |fileNames| => JStr(fileNames[i]))),
      "failed_files" := JArr(seq(|failedFiles|, i requires 0 <= i < |failedFiles| => JStr(failedFiles[i]))),
      "file_count" := JNum(|fileNames|)])
  }

  datatype Invocation = Invocation(effects: seq<Effect>, exit: Exit)

  /**
   * The handler with failures recorded under the failing filing's key. The
   * bucket comes from the environment and `batchId` is the run's `uuid4`.
   */
  function Handle(query: Query, env: Env, bucket: string, batchId: string): (r: Invocation)
    ensures query.QueryError? ==> r == Invocation([], Wrap("InternalServerError", query.message))
    ensures query.Rows? ==> r.exit.Return?
  {
    match query
    case QueryError(message) => Invocation([], Wrap("InternalServerError", message))
    case Rows(rows) =>
      var l := Ingest(rows, 0, env, Cleaner(env), bucket, batchId);
      Invocation(l.effects, Return(Output(batchId, l.fileNames, l.failedFiles)))
  }

  // ---------------------------------------------------------------------------
  // The loop as written
  // ---------------------------------------------------------------------------

  /** The Python 3.12 message for reading `file_name` before any iteration assigned it. */
  const Unbound := "cannot access local variable 'file_name' where it is not associated with a value"

  /** The as-written loop's outcome: its state, and the message of an exception out of the `except` clause. */
  datatype Outcome = Outcome(loop: Loop, raised: Option<string>)

  /**
   * The loop as written: the `except` clause appends whatever `file_name`
   * holds, which after a failed fetch is the key of the last filing that got
   * as far as naming its file — or nothing at all, and then the append
   * itself raises UnboundLocalError.
   */
  function IngestAsWritten(rows: seq<Row>, i: nat, fileName: Option<string>, env: Env, clean: string -> string, bucket: string, batchId: string): (o: Outcome)
    requires i <= |rows|
    decreases |rows| - i
  {
    if i == |rows| then Outcome(Loop([], [], []), None)
    else
      var a := Visit(rows[i], i, env, clean, bucket, batchId);
      match a
      case NotFetched(effects) =>
        if fileName.None? then Outcome(Loop(effects, [], []), Some(Unbound))
        else
          var rest := IngestAsWritten(rows, i + 1, fileName, env, clean, bucket, batchId);
          Outcome(Loop(effects + rest.loop.effects, rest.loop.fileNames, [fileName.value] + rest.loop.failedFiles), rest.raised)
      case Failed(effects) =>
        var rest := IngestAsWritten(rows, i + 1, Some(KeyOf(rows[i])), env, clean, bucket, batchId);
        Outcome(Loop(effects + rest.loop.effects, rest.loop.fileNames, [KeyOf(rows[i])] + rest.loop.failedFiles), rest.raised)
      case Delivered(effects) =>
        var rest := IngestAsWritten(rows, i + 1, Some(KeyOf(rows[i])), env, clean, bucket, batchId);
        Outcome(Loop(effects + rest.loop.effects, [KeyOf(rows[i])] + rest.loop.fileNames, rest.loop.failedFiles), rest.raised)
  }

  function HandleAsWritten(query: Query, env: Env, bucket: string, batchId: string): (r: Invocation)
    ensures query.QueryError? ==> r == Invocation([], Wrap("InternalServerError", query.message))
    ensures r.exit.Raise? ==> r.exit.errorType == "Exception"
  {
    match query
    case QueryError(message) => Invocation([], Wrap("InternalServerError", message))
    case Rows(rows) =>
      var o := IngestAsWritten(rows, 0, None, env, Cleaner(env), bucket, batchId);
      match o.raised
      case Some(message) => Invocation(o.loop.effects, Wrap("InternalServerError", message))
      case None => Invocation(o.loop.effects, Return(Output(batchId, o.loop.fileNames, o.loop.failedFiles)))
  }

  /**
   * The discrepancy: when the first filing's fetch fails, the as-written
   * handler fails the whole stage with InternalServerError, while the
   * corrected one records that filing as failed and carries on.
   */
  lemma FirstFetchFailureAborts(rows: seq<Row>, env: Env, bucket: string, batchId: string)
    requires |rows| > 0 && env.fetch(rows[0].archiveUrl).None?
    ensures HandleAsWritten(Rows(rows), env, bucket, batchId) ==
      Invocation([Fetch(rows[0].archiveUrl)], Wrap("InternalServerError", Unbound))
    ensures Handle(Rows(rows), env, bucket, batchId).exit.Return?
    ensures KeyOf(rows[0]) in Ingest(rows, 0, env, Cleaner(env), bucket, batchId).failedFiles
  {
  }

  /**
   * The discrepancy, second form: a filing delivered and then one whose fetch
   * fails leave the first filing's key in both lists as written, and never
   * name the second.
   */
  lemma StaleFailedName(first: Row, second: Row, env: Env, clean: string -> string, bucket: string, batchId: string)
    requires env.fetch(first.archiveUrl).Some? && !env.storeFails(0) && !env.sendFails(0)
    requires env.fetch(second.archiveUrl).None?
    ensures var r := IngestAsWritten([first, second], 0, None, env, clean, bucket, batchId);
      r.raised.None? && r.loop.fileNames == [KeyOf(first)] && r.loop.failedFiles == [KeyOf(first)]
    ensures var l := Ingest([first, second], 0, env, clean, bucket, batchId);
      l.fileNames == [KeyOf(first)] && l.failedFiles == [KeyOf(second)]
  {
    var rows := [first, second];
    var a := Visit(rows[0], 0, env, clean, bucket, batchId);
    var b := Visit(rows[1], 1, env, clean, bucket, batchId);
    assert a.Delivered? && b.NotFetched?;
    var tail := IngestAsWritten(rows, 1, Some(KeyOf(first)), env, clean, bucket, batchId);
    assert IngestAsWritten(rows, 2, Some(KeyOf(first)), env, clean, bucket, batchId).loop == Loop([], [], []);
    assert tail.raised.None? && tail.loop.fileNames == [] && tail.loop.failedFiles == [KeyOf(first)];
    var r := IngestAsWritten(rows, 0, None, env, clean, bucket, batchId);
    assert r.loop.fileNames == [KeyOf(first)] + tail.loop.fileNames;
  }

  /**
   * When every fetch succeeds the two loops agree: the `except` clause then
   * only ever sees the current filing's key.
   */
  lemma {:induction false} AsWrittenAgreesWhenFetched(rows: seq<Row>, i: nat, fileName: Option<string>, env: Env, clean: string -> string, bucket: string, batchId: string)
    requires i <= |rows|
    requires forall j :: i <= j < |rows| ==> env.fetch(rows[j].archiveUrl).Some?
    ensures IngestAsWritten(rows, i, fileName, env, clean, bucket, batchId) == Outcome(Ingest(rows, i, env, clean, bucket, batchId), None)
    decreases |rows| - i
  {
    if i < |rows| {
      AsWrittenAgreesWhenFetched(rows, i + 1, Some(KeyOf(rows[i])), env, clean, bucket, batchId);
      var a := Visit(rows[i], i, env, clean, bucket, batchId);
      var rest := Ingest(rows, i + 1, env, clean, bucket, batchId);
      assert !a.NotFetched?;
      if a.Delivered? {
        assert Ingest(rows, i, env, clean, bucket, batchId) == Loop(a.effects + rest.effects, [KeyOf(rows[i])] + rest.fileNames, rest.failedFiles);
      } else {
        assert Ingest(rows, i, env, clean, bucket, batchId) == Loop(a.effects + rest.effects, rest.fileNames, [KeyOf(rows[i])] + rest.failedFiles);
      }
    }
  }

  // ---------------------------------------------------------------------------
  // Properties of the corrected stage
  // ---------------------------------------------------------------------------

  /** Whether the filing at position `j` is stored and announced. */
  predicate Announced(rows: seq<Row>, j: nat, env: Env)
    requires j < |rows|
  {
    env.fetch(rows[j].archiveUrl).Some? && !env.storeFails(j) && !env.sendFails(j)
  }

  /** The keys of the filings from position `i` on that satisfy `keep`, in order. */
  function KeysWhere(rows: seq<Row>, i: nat, env: Env, keep: bool): (keys: seq<string>)
    requires i <= |rows|
    decreases |rows| - i
  {
    if i == |rows| then []
    else (if Announced(rows, i, env) == keep then [KeyOf(rows[i])] else []) + KeysWhere(rows, i + 1, env, keep)
  }

  /**
   * `file_names` lists, in input order, exactly the filings whose store and
   * send both succeeded, and `failed_files` exactly the others.
   */
  lemma {:induction false} IngestPartition(rows: seq<Row>, i: nat, env: Env, clean: string -> string, bucket: string, batchId: string)
    requires i <= |rows|
    ensures Ingest(rows, i, env, clean, bucket, batchId).fileNames == KeysWhere(rows, i, env, true)
    ensures Ingest(rows, i, env, clean, bucket, batchId).failedFiles == KeysWhere(rows, i, env, false)
    decreases |rows| - i
  {
    if i < |rows| {
      IngestPartition(rows, i + 1, env, clean, bucket, batchId);
    }
  }

  /**
   * The stage's result: the run's batch id, the stored-and-announced files in
   * input order, the others as failed, and a count equal to the number of
   * listed files.
   */
  lemma HandleResult(rows: seq<Row>, env: Env, bucket: string, batchId: string)
    ensures var out := Handle(Rows(rows), env, bucket, batchId).exit.value;
      var names := KeysWhere(rows, 0, env, true);
      && out.JObj? && out.fields.Keys == {"batch_id", "file_names", "failed_files", "file_count"}
      && out.fields["batch_id"] == JStr(batchId)
      && out.fields["file_count"] == JNum(|names|)
      && |out.fields["file_names"].items| == |names|
      && (forall k :: 0 <= k < |names| ==> out.fields["file_names"].items[k] == JStr(names[k]))
      && |out.fields["failed_files"].items| == |KeysWhere(rows, 0, env, false)|
      && (forall k :: 0 <= k < |KeysWhere(rows, 0, env, false)| ==>
            out.fields["failed_files"].items[k] == JStr(KeysWhere(rows, 0, env, false)[k]))
      && |names| + |KeysWhere(rows, 0, env, false)| == |rows|
  {
    IngestPartition(rows, 0, env, Cleaner(env), bucket, batchId);
  }

  /**
   * Every message sent carries the run's batch id and announces the object
   * stored just before it, in the run's bucket, with the filing's own CIK,
   * accession number and form.
   */
  predicate Tagged(effects: seq<Effect>, bucket: string, batchId: string) {
    forall j :: 0 <= j < |effects| && effects[j].Send? ==>
      && effects[j].batchId == batchId
      && effects[j].body.bucket == bucket
      && 0 < j && effects[j - 1].Store? && effects[j - 1].key == effects[j].body.key
      && effects[j].body.key == SecKeys.FilingKey(effects[j].body.cik, effects[j].body.form, effects[j].body.accession)
  }

  lemma TaggedAppend(a: seq<Effect>, b: seq<Effect>, bucket: string, batchId: string)
    requires Tagged(a, bucket, batchId) && Tagged(b, bucket, batchId)
    requires |b| > 0 ==> !b[0].Send?
    ensures Tagged(a + b, bucket, batchId)
  {
    var c := a + b;
    forall j | 0 <= j < |c| && c[j].Send?
      ensures c[j].batchId == batchId && c[j].body.bucket == bucket
      ensures 0 < j && c[j - 1].Store? && c[j - 1].key == c[j].body.key
      ensures c[j].body.key == SecKeys.FilingKey(c[j].body.cik, c[j].body.form, c[j].body.accession)
    {
      if j >= |a| {
        assert c[j] == b[j - |a|];
        assert j - |a| > 0;
        assert c[j - 1] == b[j - |a| - 1];
      }
    }
  }

  lemma IngestStep(rows: seq<Row>, i: nat, env: Env, clean: string -> string, bucket: string, batchId: string)
    requires i < |rows|
    ensures Ingest(rows, i, env, clean, bucket, batchId).effects ==
      Visit(rows[i], i, env, clean, bucket, batchId).effects + Ingest(rows, i + 1, env, clean, bucket, batchId).effects
  {
  }

  lemma VisitTagged(row: Row, i: nat, env: Env, clean: string -> string, bucket: string, batchId: string)
    ensures Tagged(Visit(row, i, env, clean, bucket, batchId).effects, bucket, batchId)
  {
    var e := Visit(row, i, env, clean, bucket, batchId).effects;
    forall j | 0 <= j < |e| && e[j].Send?
      ensures e[j].batchId == batchId && e[j].body.bucket == bucket
      ensures 0 < j && e[j - 1].Store? && e[j - 1].key == e[j].body.key
      ensures e[j].body.key == SecKeys.FilingKey(e[j].body.cik, e[j].body.form, e[j].body.accession)
    {
      assert j == 2;
    }
  }

  lemma {:induction false} IngestTagged(rows: seq<Row>, i: nat, env: Env, clean: string -> string, bucket: string, batchId: string)
    requires i <= |rows|
    ensures TaggedRun(Ingest(rows, i, env, clean, bucket, batchId).effects, bucket, batchId)
    decreases |rows| - i
  {
    if i < |rows| {
      IngestTagged(rows, i + 1, env, clean, bucket, batchId);
      IngestTaggedStep(rows, i, env, clean, bucket, batchId);
    }
  }

  /** Tagged effects that, unless empty, start with a fetch. */
  predicate TaggedRun(effects: seq<Effect>, bucket: string, batchId: string) {
    Tagged(effects, bucket, batchId) && (|effects| > 0 ==> effects[0].Fetch?)
  }

  /** One filing's tagged effects in front of the tagged effects of the rest. */
  lemma IngestTaggedStep(rows: seq<Row>, i: nat, env: Env, clean: string -> string, bucket: string, batchId: string)
    requires i < |rows|
    requires TaggedRun(Ingest(rows, i + 1, env, clean, bucket, batchId).effects, bucket, batchId)
    ensures TaggedRun(Ingest(rows, i, env, clean, bucket, batchId).effects, bucket, batchId)
  {
    var a := Visit(rows[i], i, env, clean, bucket, batchId).effects;
    var rest := Ingest(rows, i + 1, env, clean, bucket, batchId).effects;
    VisitTagged(rows[i], i, env, clean, bucket, batchId);
    IngestStep(rows, i, env, clean, bucket, batchId);
    TaggedAppend(a, rest, bucket, batchId);
    assert (a + rest)[0] == a[0];
  }

  /** Every message of a run carries the one batch id minted for it and names the file just stored. */
  lemma HandleTagsMessages(query: Query, env: Env, bucket: string, batchId: string)
    ensures Tagged(Handle(query, env, bucket, batchId).effects, bucket, batchId)
  {
    if query.Rows? {
      IngestTagged(query.rows, 0, env, Cleaner(env), bucket, batchId);
    }
  }

  /** Every store holds the cleaned form of the document fetched just before it. */
  predicate StoresClean(effects: seq<Effect>, env: Env, clean: string -> string) {
    forall j :: 0 <= j < |effects| && effects[j].Store? ==>
      && 0 < j && effects[j - 1].Fetch? && env.fetch(effects[j - 1].url).Some?
      && effects[j].text == clean(env.fetch(effects[j - 1].url).value)
  }

  lemma StoresCleanAppend(a: seq<Effect>, b: seq<Effect>, env: Env, clean: string -> string)
    requires StoresClean(a, env, clean) && StoresClean(b, env, clean)
    ensures StoresClean(a + b, env, clean)
  {
    var c := a + b;
    forall j | 0 <= j < |c| && c[j].Store?
      ensures 0 < j && c[j - 1].Fetch? && env.fetch(c[j - 1].url).Some?
      ensures c[j].text == clean(env.fetch(c[j - 1].url).value)
    {
      if j >= |a| {
        assert c[j] == b[j - |a|];
        assert c[j - 1] == b[j - |a| - 1];
      }
    }
  }

  lemma VisitStoresClean(row: Row, i: nat, env: Env, clean: string -> string, bucket: string, batchId: string)
    ensures StoresClean(Visit(row, i, env, clean, bucket, batchId).effects, env, clean)
  {
    var a := Visit(row, i, env, clean, bucket, batchId);
    assert forall j :: 0 <= j < |a.effects| && a.effects[j].Store? ==> j == 1;
  }

  /**
   * Every stored text is the cleaned form of the document fetched just
   * before it, and so (by CleanShape) has single spaces between
   * non-whitespace and nothing at the ends.
   */
  lemma {:induction false} IngestStoresCleanText(rows: seq<Row>, i: nat, env: Env, clean: string -> string, bucket: string, batchId: string)
    requires i <= |rows|
    ensures StoresClean(Ingest(rows, i, env, clean, bucket, batchId).effects, env, clean)
    decreases |rows| - i
  {
    if i < |rows| {
      var here := Visit(rows[i], i, env, clean, bucket, batchId).effects;
      var rest := Ingest(rows, i + 1, env, clean, bucket, batchId).effects;
      IngestStoresCleanText(rows, i + 1, env, clean, bucket, batchId);
      VisitStoresClean(rows[i], i, env, clean, bucket, batchId);
      StoresCleanAppend(here, rest, env, clean);
      IngestStep(rows, i, env, clean, bucket, batchId);
    }
  }

  /**
   * Every object the stage stores holds the cleaned text of the document
   * fetched just before it: tags stripped, whitespace collapsed, and (by
   * CleanShape) no whitespace at either end and never two in a row.
   */
  lemma HandleStoresCleanText(rows: seq<Row>, env: Env, bucket: string, batchId: string)
    ensures var e := Handle(Rows(rows), env, bucket, batchId).effects;
      forall j :: 0 <= j < |e| && e[j].Store? ==>
        && 0 < j && e[j - 1].Fetch? && env.fetch(e[j - 1].url).Some?
        && e[j].text == Clean(env, env.fetch(e[j - 1].url).value)
        && CleanText(e[j].text)
  {
    var e := Handle(Rows(rows), env, bucket, batchId).effects;
    IngestStoresCleanText(rows, 0, env, Cleaner(env), bucket, batchId);
    forall j | 0 <= j < |e| && e[j].Store? ensures CleanText(e[j].text) {
      CleanShape(env, env.fetch(e[j - 1].url).value);
    }
  }

  // ---------------------------------------------------------------------------
  // What the loop as written still gets right
  // ---------------------------------------------------------------------------

  /**
   * `file_names.append` runs only after the store and the send succeeded, so
   * whenever the as-written loop finishes, `file_names` is exactly the list
   * of announced filings, in input order.
   */
  lemma {:induction false} AsWrittenFileNames(rows: seq<Row>, i: nat, fileName: Option<string>, env: Env, clean: string -> string, bucket: string, batchId: string)
    requires i <= |rows|
    ensures var o := IngestAsWritten(rows, i, fileName, env, clean, bucket, batchId);
      o.raised.None? ==> o.loop.fileNames == KeysWhere(rows, i, env, true)
    decreases |rows| - i
  {
    if i < |rows| {
      var a := Visit(rows[i], i, env, clean, bucket, batchId);
      var next := if a.NotFetched? then fileName else Some(KeyOf(rows[i]));
      AsWrittenFileNames(rows, i + 1, next, env, clean, bucket, batchId);
      assert a.Delivered? <==> Announced(rows, i, env);
    }
  }

  /** Every message the as-written loop sends is tagged, whether or not the loop finishes. */
  lemma {:induction false} AsWrittenTagged(rows: seq<Row>, i: nat, fileName: Option<string>, env: Env, clean: string -> string, bucket: string, batchId: string)
    requires i <= |rows|
    ensures var e := IngestAsWritten(rows, i, fileName, env, clean, bucket, batchId).loop.effects;
      Tagged(e, bucket, batchId) && (|e| > 0 ==> e[0].Fetch?)
    decreases |rows| - i
  {
    if i < |rows| {
      var a := Visit(rows[i], i, env, clean, bucket, batchId);
      VisitTagged(rows[i], i, env, clean, bucket, batchId);
      if a.NotFetched? && fileName.None? {
        assert IngestAsWritten(rows, i, fileName, env, clean, bucket, batchId).loop.effects == a.effects;
      } else {
        var next := if a.NotFetched? then fileName else Some(KeyOf(rows[i]));
        AsWrittenTagged(rows, i + 1, next, env, clean, bucket, batchId);
        var rest := IngestAsWritten(rows, i + 1, next, env, clean, bucket, batchId).loop.effects;
        assert IngestAsWritten(rows, i, fileName, env, clean, bucket, batchId).loop.effects == a.effects + rest;
        TaggedAppend(a.effects, rest, bucket, batchId);
      }
    }
  }

  /**
   * The handler as written tags every message it sends and, when it returns,
   * reports the run's batch id and exactly the announced filings, in input
   * order, with their count; only `failed_files` can be wrong.
   */
  lemma HandleAsWrittenResult(rows: seq<Row>, env: Env, bucket: string, batchId: string)
    ensures Tagged(HandleAsWritten(Rows(rows), env, bucket, batchId).effects, bucket, batchId)
    ensures var r := HandleAsWritten(Rows(rows), env, bucket, batchId);
      var names := KeysWhere(rows, 0, env, true);
      r.exit.Return? ==>
        && r.exit.value.JObj?
        && r.exit.value.fields.Keys == {"batch_id", "file_names", "failed_files", "file_count"}
        && r.exit.value.fields["batch_id"] == JStr(batchId)
        && r.exit.value.fields["file_count"] == JNum(|names|)
        && |r.exit.value.fields["file_names"].items| == |names|
        && (forall k :: 0 <= k < |names| ==> r.exit.value.fields["file_names"].items[k] == JStr(names[k]))
  {
    AsWrittenTagged(rows, 0, None, env, Cleaner(env), bucket, batchId);
    AsWrittenFileNames(rows, 0, None, env, Cleaner(env), bucket, batchId);
  }
}
