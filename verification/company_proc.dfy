/**
 * The company-proc stage: for every CIK read back the submissions document
 * company-ingest stored, map it to one company-facts row and at most two
 * recent-filing rows, and write them to Postgres in a single transaction that
 * is rolled back whenever one company fails and committed once at the end.
 */
module CompanyProc {
  import opened Wrappers
  import opened Json
  import opened Runtime
  import opened Text
  import SecKeys
  import CompanyIngest

  const NoCiks := "No CIK values provided"

  // ---------------------------------------------------------------------------
  // Company facts
  // ---------------------------------------------------------------------------

  /** The company_facts columns `get_company_facts` fills. */
  const Columns: set<string> := {"cik", "sic", "sic_description", "owner_org", "name", "tickers",
    "exchanges", "ein", "description", "website", "category", "state_of_incorporation"}

  /** The submissions-document attribute each column is read from. */
  function Attribute(column: string): string {
    match column
    case "sic_description" => "sicDescription"
    case "owner_org" => "ownerOrg"
    case "state_of_incorporation" => "stateOfIncorporation"
    case _ => column
  }

  /** The column an attribute is stored in: the inverse renaming. */
  function ColumnOf(attribute: string): string {
    match attribute
    case "sicDescription" => "sic_description"
    case "ownerOrg" => "owner_org"
    case "stateOfIncorporation" => "state_of_incorporation"
    case _ => attribute
  }

  /** The attributes the facts are read from. */
  const Attributes: set<string> := {"cik", "sic", "sicDescription", "ownerOrg", "name", "tickers",
    "exchanges", "ein", "description", "website", "category", "stateOfIncorporation"}

  /** The renaming is a bijection between the columns and the attributes. */
  lemma RenamingBijective()
    ensures forall c :: c in Columns ==> Attribute(c) in Attributes && ColumnOf(Attribute(c)) == c
    ensures forall a :: a in Attributes ==> ColumnOf(a) in Columns && Attribute(ColumnOf(a)) == a
  {
  }

  lemma AttributeRoundTrip(a: string)
    requires a in Attributes
    ensures ColumnOf(a) in Columns && Attribute(ColumnOf(a)) == a
    ensures ListColumn(ColumnOf(a)) ==> ColumnOf(a) == a
  {
  }

  /** The columns that default to an empty list (`or []`) rather than to null. */
  predicate ListColumn(column: string) {
    column == "tickers" || column == "exchanges"
  }

  /**
   * `get_company_facts`: an AttributeError unless the document is an object;
   * otherwise exactly the twelve columns, each holding its attribute's value,
   * null when the attribute is missing — except that tickers and exchanges
   * hold an empty list when theirs is missing or falsy.
   */
  function CompanyFacts(data: Json): (r: Exit)
    ensures r.Return? <==> data.JObj?
    ensures r.Return? ==> r.value.JObj? && r.value.fields.Keys == Columns
    ensures r.Return? ==> forall c :: c in Columns && !ListColumn(c) ==>
      r.value.fields[c] == (if Attribute(c) in data.fields then data.fields[Attribute(c)] else JNull)
    ensures r.Return? ==> forall c :: c in Columns && ListColumn(c) ==>
      r.value.fields[c] == (if c in data.fields && Truthy(data.fields[c]) then data.fields[c] else JArr([]))
  {
    match data
    case JObj(d) =>
      Return(JObj(map c | c in Columns ::
        var v := if Attribute(c) in d then d[Attribute(c)] else JNull;
        if ListColumn(c) && !Truthy(v) then JArr([]) else v))
    case _ => Raise("AttributeError", "'" + TypeName(data) + "' object has no attribute 'get'")
  }

  /** Reading a facts row back under the submissions document's attribute names. */
  function Restore(facts: map<string, Json>): (d: map<string, Json>)
    requires facts.Keys == Columns
    ensures d.Keys == Attributes
  {
    RenamingBijective();
    map a | a in Attributes :: facts[ColumnOf(a)]
  }

  lemma FactAt(d: map<string, Json>, a: string)
    requires a in Attributes && a in d && d[a] != JNull
    requires ListColumn(ColumnOf(a)) ==> Truthy(d[a])
    ensures CompanyFacts(JObj(d)).value.fields[ColumnOf(a)] == d[a]
  {
    AttributeRoundTrip(a);
  }

  /**
   * The renaming loses nothing: for a document carrying every attribute,
   * non-null, with non-empty tickers and exchanges, reading the facts row back
   * under the original names gives the document's twelve attributes.
   */
  lemma CompanyFactsRestore(d: map<string, Json>)
    requires forall a :: a in Attributes ==> a in d && d[a] != JNull
    requires "tickers" in d && Truthy(d["tickers"]) && "exchanges" in d && Truthy(d["exchanges"])
    ensures Restore(CompanyFacts(JObj(d)).value.fields) == map a | a in Attributes :: d[a]
  {
    var facts := CompanyFacts(JObj(d)).value.fields;
    var back := Restore(facts);
    var want := map a | a in Attributes :: d[a];
    forall a | a in Attributes ensures back[a] == want[a] {
      AttributeRoundTrip(a);
      FactAt(d, a);
    }
    assert back.Keys == want.Keys;
  }

  // ---------------------------------------------------------------------------
  // Recent filings
  // ---------------------------------------------------------------------------

  /** One row of the zipped `recent` arrays. */
  datatype Filing = Filing(form: Json, filingDate: Json, accession: Json, primaryDoc: Json)

  /** The forms kept, compared by Python equality. */
  const RecentForms: seq<Json> := [JStr("10-K"), JStr("8-K"), JStr("10-Q")]
  /** The loop stops once this many filings are kept. */
  const MaxRecent: nat := 2

  predicate Kept(f: Filing) {
    f.form in RecentForms
  }

  function Min(a: nat, b: nat): nat {
    if a <= b then a else b
  }

  /** `zip` of the four arrays: as many rows as the shortest one has elements. */
  function Zip(forms: seq<Json>, dates: seq<Json>, accessions: seq<Json>, docs: seq<Json>): (rows: seq<Filing>)
    ensures |rows| == Min(Min(|forms|, |dates|), Min(|accessions|, |docs|))
    ensures forall i :: 0 <= i < |rows| ==> rows[i] == Filing(forms[i], dates[i], accessions[i], docs[i])
  {
    var n := Min(Min(|forms|, |dates|), Min(|accessions|, |docs|));
    seq(n, i requires 0 <= i < n => Filing(forms[i], dates[i], accessions[i], docs[i]))
  }

  /** The loop of `get_recent_filings`: keep rows of a wanted form, break at the second. */
  function SelectFrom(rows: seq<Filing>, kept: seq<Filing>): (r: seq<Filing>)
    requires |kept| < MaxRecent
    decreases |rows|
  {
    if |rows| == 0 then kept
    else if Kept(rows[0]) then
      if |kept| + 1 == MaxRecent then kept + [rows[0]] else SelectFrom(rows[1..], kept + [rows[0]])
    else SelectFrom(rows[1..], kept)
  }

  /** All rows of a wanted form, in order: the reference the loop is measured against. */
  function KeptRows(rows: seq<Filing>): (r: seq<Filing>)
    ensures |r| <= |rows|
    ensures forall f :: f in r <==> f in rows && Kept(f)
  {
    if |rows| == 0 then [] else (if Kept(rows[0]) then [rows[0]] else []) + KeptRows(rows[1..])
  }

  /** The loop keeps the first two rows of a wanted form, in their original order. */
  lemma {:induction false} SelectFromFirst(rows: seq<Filing>, kept: seq<Filing>)
    requires |kept| < MaxRecent
    ensures var all := kept + KeptRows(rows);
      SelectFrom(rows, kept) == all[..Min(MaxRecent, |all|)]
    decreases |rows|
  {
    var all := kept + KeptRows(rows);
    if |rows| == 0 {
      assert all == kept;
    } else if Kept(rows[0]) {
      assert KeptRows(rows) == [rows[0]] + KeptRows(rows[1..]);
      assert all == (kept + [rows[0]]) + KeptRows(rows[1..]);
      if |kept| + 1 != MaxRecent {
        SelectFromFirst(rows[1..], kept + [rows[0]]);
      }
    } else {
      assert KeptRows(rows) == KeptRows(rows[1..]);
      SelectFromFirst(rows[1..], kept);
    }
  }

  /** `recent.get(name, [])`, iterated by `zip`: `None` when `recent` is no object or the value no sequence. */
  function RecentArray(recent: Json, name: string): (r: Option<seq<Json>>)
    ensures recent.JObj? && name !in recent.fields ==> r == Some([])
    ensures recent.JObj? && name in recent.fields && recent.fields[name].JArr? ==> r == Some(recent.fields[name].items)
    ensures !recent.JObj? ==> r.None?
  {
    match GetOr(recent, name, JArr([]))
    case Raise(_, _) => None
    case Return(v) => Iterate(v)
  }

  /**
   * `get_recent_filings`: the document's `filings.recent` arrays (each
   * defaulting to empty), zipped and filtered. `None` is the AttributeError of
   * a non-object along the way or the TypeError of zipping a non-iterable.
   */
  function RecentFilings(data: Json): (r: Option<seq<Filing>>)
  {
    match GetOr(data, "filings", JObj(map[]))
    case Raise(_, _) => None
    case Return(filings) =>
      match GetOr(filings, "recent", JObj(map[]))
      case Raise(_, _) => None
      case Return(recent) =>
        var forms :- RecentArray(recent, "form");
        var dates :- RecentArray(recent, "filingDate");
        var accessions :- RecentArray(recent, "accessionNumber");
        var docs :- RecentArray(recent, "primaryDocument");
        Some(SelectFrom(Zip(forms, dates, accessions, docs), []))
  }

  /**
   * For a document whose `filings.recent` holds four arrays, the recent
   * filings are the first two zipped rows of a wanted form, in source order;
   * rows past the end of the shortest array are never looked at.
   */
  lemma RecentFilingsSelect(data: Json, forms: seq<Json>, dates: seq<Json>, accessions: seq<Json>, docs: seq<Json>)
    requires data.JObj? && "filings" in data.fields
    requires var filings := data.fields["filings"];
      filings.JObj? && "recent" in filings.fields && filings.fields["recent"] ==
      JObj(map["form" := JArr(forms), "filingDate" := JArr(dates), "accessionNumber" := JArr(accessions), "primaryDocument" := JArr(docs)])
    ensures var kept := KeptRows(Zip(forms, dates, accessions, docs));
      RecentFilings(data) == Some(kept[..Min(MaxRecent, |kept|)])
    ensures forall i :: 0 <= i < |RecentFilings(data).value| ==> RecentFilings(data).value[i] in Zip(forms, dates, accessions, docs)
  {
    var recent := data.fields["filings"].fields["recent"];
    assert RecentArray(recent, "form") == Some(forms);
    assert RecentArray(recent, "filingDate") == Some(dates);
    assert RecentArray(recent, "accessionNumber") == Some(accessions);
    assert RecentArray(recent, "primaryDocument") == Some(docs);
    var rows := Zip(forms, dates, accessions, docs);
    SelectFromFirst(rows, []);
    assert [] + KeptRows(rows) == KeptRows(rows);
  }

  /** A document without `filings`, or whose `filings` lacks `recent`, has no recent filings. */
  lemma RecentFilingsMissing(data: Json)
    requires data.JObj?
    requires "filings" !in data.fields || (data.fields["filings"].JObj? && "recent" !in data.fields["filings"].fields)
    ensures RecentFilings(data) == Some([])
  {
    var empty: map<string, Json> := map[];
    assert RecentArray(JObj(empty), "form") == Some([]);
    assert Zip([], [], [], []) == [];
  }

  /** Every kept filing is one of the wanted forms, and at most two are kept. */
  lemma RecentFilingsBounded(data: Json)
    ensures RecentFilings(data).Some? ==>
      |RecentFilings(data).value| <= MaxRecent &&
      forall i :: 0 <= i < |RecentFilings(data).value| ==> RecentFilings(data).value[i].form in RecentForms
  {
    if RecentFilings(data).Some? {
      var filings := GetOr(data, "filings", JObj(map[])).value;
      var recent := GetOr(filings, "recent", JObj(map[])).value;
      var rows := Zip(RecentArray(recent, "form").value, RecentArray(recent, "filingDate").value,
                      RecentArray(recent, "accessionNumber").value, RecentArray(recent, "primaryDocument").value);
      SelectFromFirst(rows, []);
      var kept := [] + KeptRows(rows);
      assert forall i :: 0 <= i < |kept| ==> kept[i] in KeptRows(rows);
    }
  }

  // ---------------------------------------------------------------------------
  // Writes
  // ---------------------------------------------------------------------------

  /** One `cur.execute` of the stage: a company_facts upsert or a company_filings upsert. */
  datatype Write =
    | SaveFacts(facts: map<string, Json>)
    | SaveFiling(cik: string, filing: Filing, archiveUrl: string)

  /**
   * The rows `save_recent_filings` writes for one company. `None` when an
   * accession number is not a string (its `.replace` raises) or a primary
   * document is a list or object, which the model does not render.
   */
  function FilingWrites(cik: string, filings: seq<Filing>): (r: Option<seq<Write>>)
    ensures r.Some? <==> forall i :: 0 <= i < |filings| ==> filings[i].accession.JStr? && PyStr(filings[i].primaryDoc).Some?
    ensures r.Some? ==> |r.value| == |filings|
    ensures r.Some? ==> forall i :: 0 <= i < |filings| ==>
      (r.value[i].SaveFiling? && r.value[i].cik == cik && r.value[i].filing == filings[i])
    ensures r.Some? ==> forall i :: 0 <= i < |filings| ==>
      r.value[i].archiveUrl == SecKeys.ArchiveUrl(cik, filings[i].accession.s, PyStr(filings[i].primaryDoc).value)
  {
    if |filings| == 0 then Some([])
    else
      var f := filings[0];
      if !f.accession.JStr? || PyStr(f.primaryDoc).None? then None
      else
        var rest :- FilingWrites(cik, filings[1..]);
        Some([SaveFiling(cik, f, SecKeys.ArchiveUrl(cik, f.accession.s, PyStr(f.primaryDoc).value))] + rest)
  }

  /**
   * Every filing row's archive URL names the filing by its three path parts:
   * the CIK as listed, the accession number without dashes, and the primary
   * document.
   */
  lemma FilingArchiveUrls(cik: string, filings: seq<Filing>, i: nat)
    requires FilingWrites(cik, filings).Some? && i < |filings|
    requires var f := filings[i]; !Contains(cik, '/') && !Contains(f.accession.s, '/') && !Contains(PyStr(f.primaryDoc).value, '/')
    ensures var w := FilingWrites(cik, filings).value[i];
      && w.archiveUrl[..40] == "https://www.sec.gov/Archives/edgar/data/"
      && Split(w.archiveUrl[40..], '/') == [cik, RemoveAll(filings[i].accession.s, '-'), PyStr(filings[i].primaryDoc).value]
      && !Contains(Split(w.archiveUrl[40..], '/')[1], '-')
  {
    var f := filings[i];
    SecKeys.ArchiveUrlParts(cik, f.accession.s, PyStr(f.primaryDoc).value);
  }

  // ---------------------------------------------------------------------------
  // One company
  // ---------------------------------------------------------------------------

  /**
   * The stored submissions documents as the stage reads them: the decoded
   * object at a key, or `None` when it is missing, not UTF-8 or not JSON.
   */
  type Store = string -> Option<Json>

  /** Postgres as the stage sees it: whether executing a write raises `psycopg2.Error`. */
  type Database = Write -> bool

  predicate Accepted(writes: seq<Write>, db: Database) {
    forall i :: 0 <= i < |writes| ==> !db(writes[i])
  }

  /**
   * The inner `try` for one CIK: the writes it leaves in the open
   * transaction, or `None` when anything in it raises (a non-string CIK
   * included, since its `zfill` is inside the `try`).
   */
  function ProcessCik(cik: Json, store: Store, db: Database): (r: Option<seq<Write>>)
    ensures r.Some? ==> cik.JStr? && store(SecKeys.SubmissionsKey(cik.s)).Some?
    ensures r.Some? ==> |r.value| >= 1 && r.value[0].SaveFacts? && Accepted(r.value, db)
    ensures r.Some? ==> |r.value| <= 1 + MaxRecent
    ensures r.Some? ==> forall i :: 1 <= i < |r.value| ==> r.value[i].SaveFiling? && r.value[i].cik == cik.s
  {
    if !cik.JStr? then None
    else
      var c := cik.s;
      var data :- store(SecKeys.SubmissionsKey(c));
      var facts := CompanyFacts(data);
      if facts.Raise? then None
      else
        var recent :- RecentFilings(data);
        RecentFilingsBounded(data);
        var filings :- FilingWrites(c, recent);
        var writes := [SaveFacts(facts.value.fields)] + filings;
        if Accepted(writes, db) then Some(writes) else None
  }

  /**
   * One company succeeds exactly when its CIK is a string, its submissions
   * document is stored and is an object, its recent filings render and the
   * database accepts every write. Its writes are then the company_facts row
   * built from that document, followed by the company_filings rows of its kept
   * recent filings, in order.
   */
  lemma ProcessCikWrites(cik: Json, store: Store, db: Database)
    ensures ProcessCik(cik, store, db).Some? <==>
      && cik.JStr? && store(SecKeys.SubmissionsKey(cik.s)).Some?
      && var data := store(SecKeys.SubmissionsKey(cik.s)).value;
         && data.JObj? && RecentFilings(data).Some?
         && FilingWrites(cik.s, RecentFilings(data).value).Some?
         && Accepted([SaveFacts(CompanyFacts(data).value.fields)] + FilingWrites(cik.s, RecentFilings(data).value).value, db)
    ensures ProcessCik(cik, store, db).Some? ==>
      var data := store(SecKeys.SubmissionsKey(cik.s)).value;
      && ProcessCik(cik, store, db).value[0] == SaveFacts(CompanyFacts(data).value.fields)
      && ProcessCik(cik, store, db).value[1..] == FilingWrites(cik.s, RecentFilings(data).value).value
  {
    if cik.JStr? && store(SecKeys.SubmissionsKey(cik.s)).Some? {
      var data := store(SecKeys.SubmissionsKey(cik.s)).value;
      if data.JObj? && RecentFilings(data).Some? && FilingWrites(cik.s, RecentFilings(data).value).Some? {
        var writes := [SaveFacts(CompanyFacts(data).value.fields)] + FilingWrites(cik.s, RecentFilings(data).value).value;
        assert writes[1..] == FilingWrites(cik.s, RecentFilings(data).value).value;
      }
    }
  }

  // ---------------------------------------------------------------------------
  // The transaction
  // ---------------------------------------------------------------------------

  /**
   * The open transaction after the loop: each company's writes are added to
   * it, and a failing company's `conn.rollback()` empties it.
   */
  function Transaction<W>(outcomes: seq<Option<seq<W>>>): seq<W> {
    if |outcomes| == 0 then []
    else match outcomes[|outcomes| - 1]
      case None => []
      case Some(writes) => Transaction(outcomes[..|outcomes| - 1]) + writes
  }

  /** The position just after the last failing company, or 0 when none failed. */
  function SinceLastFailure<W>(outcomes: seq<Option<seq<W>>>): (k: nat)
    ensures k <= |outcomes|
    ensures forall i :: k <= i < |outcomes| ==> outcomes[i].Some?
    ensures k > 0 ==> outcomes[k - 1].None?
  {
    if |outcomes| == 0 then 0
    else if outcomes[|outcomes| - 1].None? then |outcomes|
    else SinceLastFailure(outcomes[..|outcomes| - 1])
  }

  /** The writes of a run of companies that all succeeded, in order. */
  function Concat<W>(outcomes: seq<Option<seq<W>>>): seq<W>
    requires forall i :: 0 <= i < |outcomes| ==> outcomes[i].Some?
  {
    if |outcomes| == 0 then [] else outcomes[0].value + Concat(outcomes[1..])
  }

  lemma {:induction false} ConcatSnoc<W>(outcomes: seq<Option<seq<W>>>, last: seq<W>)
    requires forall i :: 0 <= i < |outcomes| ==> outcomes[i].Some?
    ensures Concat(outcomes + [Some(last)]) == Concat(outcomes) + last
    decreases |outcomes|
  {
    var all := outcomes + [Some(last)];
    if |outcomes| == 0 {
      assert all[1..] == [];
    } else {
      assert all[0] == outcomes[0];
      assert all[1..] == outcomes[1..] + [Some(last)];
      ConcatSnoc(outcomes[1..], last);
    }
  }

  /**
   * A failure discards every write made before it, the successful companies'
   * included: what the transaction holds at the end is exactly the writes of
   * the companies after the last failing one, in order.
   */
  lemma {:induction false} TransactionAfterLastFailure<W>(outcomes: seq<Option<seq<W>>>)
    ensures Transaction(outcomes) == Concat(outcomes[SinceLastFailure(outcomes)..])
    decreases |outcomes|
  {
    if |outcomes| > 0 {
      var n := |outcomes|;
      var init := outcomes[..n - 1];
      if outcomes[n - 1].None? {
        assert outcomes[n..] == [];
      } else {
        TransactionAfterLastFailure(init);
        var k := SinceLastFailure(init);
        assert SinceLastFailure(outcomes) == k;
        assert outcomes[k..] == init[k..] + [outcomes[n - 1]];
        ConcatSnoc(init[k..], outcomes[n - 1].value);
      }
    }
  }

  /** A failure of the last company leaves nothing to commit, however many succeeded before it. */
  lemma LastFailureDiscardsAll<W>(outcomes: seq<Option<seq<W>>>)
    requires |outcomes| > 0 && outcomes[|outcomes| - 1].None?
    ensures Transaction(outcomes) == []
  {
  }

  /** With no failure at all, every company's writes are committed, in list order. */
  lemma NoFailureKeepsAll<W>(outcomes: seq<Option<seq<W>>>)
    requires forall i :: 0 <= i < |outcomes| ==> outcomes[i].Some?
    ensures Transaction(outcomes) == Concat(outcomes)
  {
    TransactionAfterLastFailure(outcomes);
    assert SinceLastFailure(outcomes) == 0;
    assert outcomes[0..] == outcomes;
  }

  // ---------------------------------------------------------------------------
  // The handler
  // ---------------------------------------------------------------------------

  /** The submissions keys the loop reads: one per string CIK, in list order. */
  function Reads(ciks: seq<Json>): (keys: seq<string>)
    ensures |keys| <= |ciks|
  {
    if |ciks| == 0 then []
    else (if ciks[0].JStr? then [SecKeys.SubmissionsKey(ciks[0].s)] else []) + Reads(ciks[1..])
  }

  function Outcomes(ciks: seq<Json>, store: Store, db: Database): (os: seq<Option<seq<Write>>>)
    ensures |os| == |ciks| && forall i :: 0 <= i < |ciks| ==> os[i] == ProcessCik(ciks[i], store, db)
  {
    seq(|ciks|, i requires 0 <= i < |ciks| => ProcessCik(ciks[i], store, db))
  }

  /**
   * What a run did: whether it connected to Postgres, the keys it read, the
   * writes that were committed, and how it ended.
   */
  datatype Invocation = Invocation(connected: bool, keysRead: seq<string>, committed: seq<Write>, exit: Exit)

  /**
   * The handler. `connect` and `commit` are `None` when those calls succeed
   * and carry the `psycopg2.Error` message when they raise.
   */
  function Handle(event: Json, store: Store, db: Database, connect: Option<string>, commit: Option<string>): (r: Invocation)
    ensures !r.connected ==> r.keysRead == [] && r.committed == []
    ensures r.exit.Return? ==> r.exit.value == JObj(map["CompanyProc" := JStr("OK")])
    ensures r.exit.Raise? ==> r.committed == [] && r.exit.errorType == "Exception"
  {
    match GetOr(event, "cik_list", JArr([]))
    case Raise(_, message) => Invocation(false, [], [], Wrap("InternalServerError", message))
    case Return(list) =>
      if !Truthy(list) then Invocation(false, [], [], Wrap("BadRequest", NoCiks))
      else match connect
        case Some(message) => Invocation(false, [], [], Wrap("DatabaseConnectionError", message))
        case None =>
          match Iterate(list)
          case None => Invocation(true, [], [], Wrap("InternalServerError", "'" + TypeName(list) + "' object is not iterable"))
          case Some(ciks) =>
            var pending := Transaction(Outcomes(ciks, store, db));
            match commit
            case Some(message) => Invocation(true, Reads(ciks), [], Wrap("DatabaseConnectionError", message))
            case None => Invocation(true, Reads(ciks), pending, Return(JObj(map["CompanyProc" := JStr("OK")])))
  }

  /** A missing or empty CIK list is a BadRequest raised before any connection is opened. */
  lemma EmptyListRejected(event: Json, store: Store, db: Database, connect: Option<string>, commit: Option<string>)
    requires event.JObj? && ("cik_list" !in event.fields || !Truthy(event.fields["cik_list"]))
    ensures Handle(event, store, db, connect, commit) == Invocation(false, [], [], Wrap("BadRequest", NoCiks))
  {
  }

  /**
   * For an iterable non-empty list the run ends OK exactly when both connect
   * and commit succeed, whatever happened to the individual companies, and
   * then the committed writes are those of the companies after the last
   * failing one. A failed connect or commit is a DatabaseConnectionError.
   */
  lemma HandleCommits(event: Json, store: Store, db: Database, connect: Option<string>, commit: Option<string>)
    requires event.JObj? && "cik_list" in event.fields
    requires var list := event.fields["cik_list"]; Truthy(list) && Iterate(list).Some?
    ensures var r := Handle(event, store, db, connect, commit);
      var os := Outcomes(Iterate(event.fields["cik_list"]).value, store, db);
      && (r.exit.Return? <==> connect.None? && commit.None?)
      && (r.exit.Return? ==> r.committed == Concat(os[SinceLastFailure(os)..]))
      && (connect.Some? ==> r.exit == Wrap("DatabaseConnectionError", connect.value))
      && (connect.None? && commit.Some? ==> r.exit == Wrap("DatabaseConnectionError", commit.value))
  {
    TransactionAfterLastFailure(Outcomes(Iterate(event.fields["cik_list"]).value, store, db));
  }

  lemma {:induction false} ReadsOfStrings(items: seq<Json>)
    requires forall i :: 0 <= i < |items| ==> items[i].JStr?
    ensures Reads(items) == CompanyIngest.SubmissionsKeys(CompanyIngest.Ciks(items))
    decreases |items|
  {
    if |items| > 0 {
      ReadsOfStrings(items[1..]);
      assert CompanyIngest.Ciks(items) == [items[0].s] + CompanyIngest.Ciks(items[1..]);
      assert ([items[0].s] + CompanyIngest.Ciks(items[1..]))[1..] == CompanyIngest.Ciks(items[1..]);
    }
  }

  /** Once connected, the run reads one submissions key per string CIK, in list order. */
  lemma HandleReads(items: seq<Json>, store: Store, db: Database, commit: Option<string>)
    requires |items| > 0
    ensures Handle(JObj(map["cik_list" := JArr(items)]), store, db, None, commit).keysRead == Reads(items)
  {
    var event := JObj(map["cik_list" := JArr(items)]);
    assert GetOr(event, "cik_list", JArr([])) == Return(JArr(items));
    assert Truthy(JArr(items));
    assert Iterate(JArr(items)) == Some(items);
  }

  lemma KeysCover(ciks: seq<string>, avail: seq<string>, k: string)
    requires forall c :: c in avail ==> c in ciks
    requires k in CompanyIngest.SubmissionsKeys(avail)
    ensures k in CompanyIngest.SubmissionsKeys(ciks)
  {
    var i :| 0 <= i < |avail| && CompanyIngest.SubmissionsKeys(avail)[i] == k;
    assert avail[i] in ciks;
    var j :| 0 <= j < |ciks| && ciks[j] == avail[i];
    assert CompanyIngest.SubmissionsKeys(ciks)[j] == k;
  }

  /**
   * Given the same CIK list, company-proc reads every company's document under
   * the key company-ingest stores it at: in particular every document
   * company-ingest stored is among those read.
   */
  lemma ReadsWhatIngestStored(items: seq<Json>, edgar: CompanyIngest.Edgar,
                              store: Store, db: Database, commit: Option<string>)
    requires |items| > 0 && forall i :: 0 <= i < |items| ==> items[i].JStr?
    ensures var event := JObj(map["cik_list" := JArr(items)]);
      var read := Handle(event, store, db, None, commit).keysRead;
      && read == CompanyIngest.SubmissionsKeys(CompanyIngest.Ciks(items))
      && forall k :: k in CompanyIngest.Stored(CompanyIngest.Handle(event, edgar).effects) ==> k in read
  {
    HandleReads(items, store, db, commit);
    ReadsOfStrings(items);
    CompanyIngest.HandleEffects(items, edgar);
    var ciks := CompanyIngest.Ciks(items);
    var avail := CompanyIngest.Available(ciks, edgar);
    forall k | k in CompanyIngest.SubmissionsKeys(avail) ensures k in CompanyIngest.SubmissionsKeys(ciks) {
      KeysCover(ciks, avail, k);
    }
  }
}
