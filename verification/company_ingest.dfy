/**
 * The company-ingest stage: for every CIK in the event, fetch the company's
 * EDGAR submissions document and store it under its submissions key. A
 * failure for one company is recorded and skipped; the stage as a whole only
 * fails for a missing CIK list or for a CIK that is not a string.
 */
module CompanyIngest {
  import opened Wrappers
  import opened Json
  import opened Runtime
  import SecKeys

  /** The BadRequest message for a missing or empty CIK list. */
  const NoCiks := "No CIK values provided"

  /** What the stage does to the outside world, in order. */
  datatype Effect =
    | Fetch(url: string)                    // `requests.get` of a submissions document
    | Store(key: string, body: Json)        // `put_object` of the decoded document

  datatype Invocation = Invocation(effects: seq<Effect>, exit: Exit)

  /**
   * EDGAR as the stage sees it: the decoded document at a URL, or `None` when
   * the request fails, returns an error status or is not JSON.
   */
  type Edgar = string -> Option<Json>

  /** The effects of one company's inner `try`: a fetch, then a store of what was fetched. */
  function Visit(cik: string, edgar: Edgar): (e: seq<Effect>)
    ensures 1 <= |e| <= 2 && e[0] == Fetch(SecKeys.SubmissionsUrl(cik))
    ensures |e| == 2 <==> edgar(SecKeys.SubmissionsUrl(cik)).Some?
    ensures |e| == 2 ==> e[1] == Store(SecKeys.SubmissionsKey(cik), edgar(SecKeys.SubmissionsUrl(cik)).value)
  {
    var url := SecKeys.SubmissionsUrl(cik);
    match edgar(url)
    case None => [Fetch(url)]
    case Some(doc) => [Fetch(url), Store(SecKeys.SubmissionsKey(cik), doc)]
  }

  /** The number of leading elements of the list that are strings: how far the loop gets. */
  function StringPrefix(ciks: seq<Json>): (n: nat)
    ensures n <= |ciks|
    ensures forall i :: 0 <= i < n ==> ciks[i].JStr?
    ensures n < |ciks| ==> !ciks[n].JStr?
  {
    if |ciks| == 0 || !ciks[0].JStr? then 0 else 1 + StringPrefix(ciks[1..])
  }

  /** The loop over the CIK list: effects so far, and the AttributeError of a non-string CIK. */
  datatype Progress = Progress(effects: seq<Effect>, failure: Option<string>)

  function IngestAll(ciks: seq<Json>, edgar: Edgar): (p: Progress)
    ensures p.failure.None? <==> StringPrefix(ciks) == |ciks|
  {
    if |ciks| == 0 then Progress([], None)
    else match ciks[0]
      case JStr(cik) =>
        var rest := IngestAll(ciks[1..], edgar);
        Progress(Visit(cik, edgar) + rest.effects, rest.failure)
      case other => Progress([], Some("'" + TypeName(other) + "' object has no attribute 'zfill'"))
  }

  /** The handler: read `cik_list`, reject an empty one, visit every company, report OK. */
  function Handle(event: Json, edgar: Edgar): (r: Invocation)
    ensures r.exit.Return? ==> r.exit.value == JObj(map["CompanyIngest" := JStr("OK")])
    ensures r.exit.Raise? ==> r.exit.errorType == "Exception"
  {
    match GetOr(event, "cik_list", JArr([]))
    case Raise(_, message) => Invocation([], Wrap("InternalServerError", message))
    case Return(list) =>
      if !Truthy(list) then Invocation([], Wrap("BadRequest", NoCiks))
      else match Iterate(list)
        case None => Invocation([], Wrap("InternalServerError", "'" + TypeName(list) + "' object is not iterable"))
        case Some(ciks) =>
          var p := IngestAll(ciks, edgar);
          match p.failure
          case Some(message) => Invocation(p.effects, Wrap("InternalServerError", message))
          case None => Invocation(p.effects, Return(JObj(map["CompanyIngest" := JStr("OK")])))
  }

  // ---------------------------------------------------------------------------
  // Properties
  // ---------------------------------------------------------------------------

  /** The fetched URLs of a run, in order. */
  function Fetched(effects: seq<Effect>): (urls: seq<string>)
    ensures |urls| <= |effects|
  {
    if |effects| == 0 then []
    else (if effects[0].Fetch? then [effects[0].url] else []) + Fetched(effects[1..])
  }

  /** The stored keys of a run, in order. */
  function Stored(effects: seq<Effect>): (keys: seq<string>)
    ensures |keys| <= |effects|
  {
    if |effects| == 0 then []
    else (if effects[0].Store? then [effects[0].key] else []) + Stored(effects[1..])
  }

  lemma {:induction false} FetchedAppend(a: seq<Effect>, b: seq<Effect>)
    ensures Fetched(a + b) == Fetched(a) + Fetched(b)
    decreases |a|
  {
    if |a| == 0 {
      assert a + b == b;
    } else {
      var head := if a[0].Fetch? then [a[0].url] else [];
      assert (a + b)[0] == a[0];
      assert (a + b)[1..] == a[1..] + b;
      assert Fetched(a + b) == head + Fetched(a[1..] + b);
      FetchedAppend(a[1..], b);
      assert Fetched(a) == head + Fetched(a[1..]);
    }
  }

  lemma {:induction false} StoredAppend(a: seq<Effect>, b: seq<Effect>)
    ensures Stored(a + b) == Stored(a) + Stored(b)
    decreases |a|
  {
    if |a| == 0 {
      assert a + b == b;
    } else {
      var head := if a[0].Store? then [a[0].key] else [];
      assert (a + b)[0] == a[0];
      assert (a + b)[1..] == a[1..] + b;
      assert Stored(a + b) == head + Stored(a[1..] + b);
      StoredAppend(a[1..], b);
      assert Stored(a) == head + Stored(a[1..]);
    }
  }

  /** One company's visit fetches its URL and stores its document when EDGAR returned one. */
  lemma VisitEffects(cik: string, edgar: Edgar)
    ensures Fetched(Visit(cik, edgar)) == [SecKeys.SubmissionsUrl(cik)]
    ensures Stored(Visit(cik, edgar)) == if edgar(SecKeys.SubmissionsUrl(cik)).Some? then [SecKeys.SubmissionsKey(cik)] else []
  {
    var v := Visit(cik, edgar);
    var url := SecKeys.SubmissionsUrl(cik);
    if edgar(url).Some? {
      assert v == [Fetch(url), Store(SecKeys.SubmissionsKey(cik), edgar(url).value)];
      assert v[1..][1..] == [];
    } else {
      assert v == [Fetch(url)];
      assert v[1..] == [];
    }
  }

  /** The CIKs the loop gets to: the leading string elements of the list. */
  function Ciks(ciks: seq<Json>): (s: seq<string>)
    ensures |s| == StringPrefix(ciks) && forall i :: 0 <= i < |s| ==> s[i] == ciks[i].s
  {
    if |ciks| == 0 || !ciks[0].JStr? then [] else [ciks[0].s] + Ciks(ciks[1..])
  }

  /** The companies whose submissions document EDGAR returns, in list order. */
  function Available(ciks: seq<string>, edgar: Edgar): (s: seq<string>)
    ensures |s| <= |ciks|
    ensures forall c :: c in s <==> c in ciks && edgar(SecKeys.SubmissionsUrl(c)).Some?
  {
    if |ciks| == 0 then []
    else (if edgar(SecKeys.SubmissionsUrl(ciks[0])).Some? then [ciks[0]] else []) + Available(ciks[1..], edgar)
  }

  function SubmissionsUrls(ciks: seq<string>): (s: seq<string>)
    ensures |s| == |ciks| && forall i :: 0 <= i < |ciks| ==> s[i] == SecKeys.SubmissionsUrl(ciks[i])
  {
    if |ciks| == 0 then [] else [SecKeys.SubmissionsUrl(ciks[0])] + SubmissionsUrls(ciks[1..])
  }

  function SubmissionsKeys(ciks: seq<string>): (s: seq<string>)
    ensures |s| == |ciks| && forall i :: 0 <= i < |ciks| ==> s[i] == SecKeys.SubmissionsKey(ciks[i])
  {
    if |ciks| == 0 then [] else [SecKeys.SubmissionsKey(ciks[0])] + SubmissionsKeys(ciks[1..])
  }

  /**
   * The loop visits the companies up to the first non-string CIK, in list
   * order: it fetches each one's submissions URL, and stores exactly the ones
   * EDGAR returned, under their submissions keys.
   */
  lemma IngestAllEffects(ciks: seq<Json>, edgar: Edgar)
    ensures Fetched(IngestAll(ciks, edgar).effects) == SubmissionsUrls(Ciks(ciks))
    ensures Stored(IngestAll(ciks, edgar).effects) == SubmissionsKeys(Available(Ciks(ciks), edgar))
  {
    IngestFetches(ciks, edgar);
    IngestStores(ciks, edgar);
  }

  lemma {:induction false} IngestFetches(ciks: seq<Json>, edgar: Edgar)
    ensures Fetched(IngestAll(ciks, edgar).effects) == SubmissionsUrls(Ciks(ciks))
    decreases |ciks|
  {
    if |ciks| > 0 && ciks[0].JStr? {
      var cik := ciks[0].s;
      var tail := ciks[1..];
      IngestFetches(tail, edgar);
      VisitEffects(cik, edgar);
      FetchedAppend(Visit(cik, edgar), IngestAll(tail, edgar).effects);
      var cs := Ciks(tail);
      assert Ciks(ciks) == [cik] + cs;
      assert ([cik] + cs)[1..] == cs;
    }
  }

  lemma {:induction false} IngestStores(ciks: seq<Json>, edgar: Edgar)
    ensures Stored(IngestAll(ciks, edgar).effects) == SubmissionsKeys(Available(Ciks(ciks), edgar))
    decreases |ciks|
  {
    if |ciks| > 0 && ciks[0].JStr? {
      var cik := ciks[0].s;
      var tail := ciks[1..];
      var url := SecKeys.SubmissionsUrl(cik);
      IngestStores(tail, edgar);
      VisitEffects(cik, edgar);
      StoredAppend(Visit(cik, edgar), IngestAll(tail, edgar).effects);
      var cs := Ciks(tail);
      assert Ciks(ciks) == [cik] + cs;
      assert ([cik] + cs)[1..] == cs;
      var here := if edgar(url).Some? then [cik] else [];
      assert Available([cik] + cs, edgar) == here + Available(cs, edgar);
      KeysAppend(here, Available(cs, edgar));
      if edgar(url).Some? {
        assert here[1..] == [];
      }
    }
  }

  lemma {:induction false} KeysAppend(a: seq<string>, b: seq<string>)
    ensures SubmissionsKeys(a + b) == SubmissionsKeys(a) + SubmissionsKeys(b)
  {
    if |a| == 0 {
      assert a + b == b;
    } else {
      assert (a + b)[0] == a[0];
      assert (a + b)[1..] == a[1..] + b;
      KeysAppend(a[1..], b);
    }
  }

  /** A string CIK list is iterated character by character, every one of them a string. */
  lemma StringListIterates(list: Json)
    requires list.JStr?
    ensures StringPrefix(Iterate(list).value) == |list.s|
  {
    var items := Iterate(list).value;
    AllStrings(items);
  }

  lemma {:induction false} AllStrings(items: seq<Json>)
    requires forall i :: 0 <= i < |items| ==> items[i].JStr?
    ensures StringPrefix(items) == |items|
    decreases |items|
  {
    if |items| > 0 {
      AllStrings(items[1..]);
    }
  }

  /**
   * The stage succeeds exactly when the event is an object whose `cik_list` is
   * a non-empty list of strings (or a non-empty string, whose characters Python
   * iterates); the failures of individual fetches and stores never reach the
   * result. A missing or empty list is a BadRequest with no effect at all.
   */
  lemma HandleOutcome(event: Json, edgar: Edgar)
    ensures Handle(event, edgar).exit.Return? <==>
      && event.JObj? && "cik_list" in event.fields
      && var list := event.fields["cik_list"];
      || (list.JArr? && |list.items| > 0 && StringPrefix(list.items) == |list.items|)
      || (list.JStr? && |list.s| > 0)
    ensures event.JObj? && ("cik_list" !in event.fields || !Truthy(event.fields["cik_list"])) ==>
      Handle(event, edgar) == Invocation([], Wrap("BadRequest", NoCiks))
    ensures !event.JObj? ==> Handle(event, edgar).effects == []
    ensures !event.JObj? ==> Handle(event, edgar).exit == Wrap("InternalServerError", "'" + TypeName(event) + "' object has no attribute 'get'")
  {
    if event.JObj? && "cik_list" in event.fields {
      var list := event.fields["cik_list"];
      if list.JStr? {
        StringListIterates(list);
      }
    }
  }

  /** The loop stops at the first non-string CIK, with the AttributeError `zfill` raises on it. */
  lemma {:induction false} IngestAllFailure(ciks: seq<Json>, edgar: Edgar)
    requires StringPrefix(ciks) < |ciks|
    ensures IngestAll(ciks, edgar).failure ==
      Some("'" + TypeName(ciks[StringPrefix(ciks)]) + "' object has no attribute 'zfill'")
    decreases |ciks|
  {
    if ciks[0].JStr? {
      IngestAllFailure(ciks[1..], edgar);
      assert StringPrefix(ciks) == StringPrefix(ciks[1..]) + 1;
    }
  }

  /**
   * A CIK that is not a string aborts the run when the loop reaches it: the
   * companies before it have been visited, and the stage fails with
   * InternalServerError naming the type that has no `zfill`.
   */
  lemma NonStringCikAborts(items: seq<Json>, edgar: Edgar)
    requires StringPrefix(items) < |items|
    ensures var r := Handle(JObj(map["cik_list" := JArr(items)]), edgar);
      && r.exit == Wrap("InternalServerError", "'" + TypeName(items[StringPrefix(items)]) + "' object has no attribute 'zfill'")
      && Fetched(r.effects) == SubmissionsUrls(Ciks(items))
  {
    var event := JObj(map["cik_list" := JArr(items)]);
    assert GetOr(event, "cik_list", JArr([])) == Return(JArr(items));
    assert Truthy(JArr(items));
    assert Iterate(JArr(items)) == Some(items);
    IngestAllFailure(items, edgar);
    var p := IngestAll(items, edgar);
    var message := "'" + TypeName(items[StringPrefix(items)]) + "' object has no attribute 'zfill'";
    assert p.failure == Some(message);
    assert Handle(event, edgar) == Invocation(p.effects, Wrap("InternalServerError", message));
    IngestAllEffects(items, edgar);
  }

  /**
   * For a non-empty list of string CIKs the stage reports OK, fetches every
   * company's submissions URL in list order and stores exactly the documents it
   * got, each under the key company-proc reads back.
   */
  lemma HandleEffects(items: seq<Json>, edgar: Edgar)
    requires |items| > 0 && forall i :: 0 <= i < |items| ==> items[i].JStr?
    ensures var r := Handle(JObj(map["cik_list" := JArr(items)]), edgar);
      && r.exit == Return(JObj(map["CompanyIngest" := JStr("OK")]))
      && Fetched(r.effects) == SubmissionsUrls(Ciks(items))
      && Stored(r.effects) == SubmissionsKeys(Available(Ciks(items), edgar))
      && |Ciks(items)| == |items|
  {
    var event := JObj(map["cik_list" := JArr(items)]);
    assert GetOr(event, "cik_list", JArr([])) == Return(JArr(items));
    assert Truthy(JArr(items));
    assert Iterate(JArr(items)) == Some(items);
    AllStrings(items);
    var p := IngestAll(items, edgar);
    assert p.failure.None?;
    assert Handle(event, edgar) == Invocation(p.effects, Return(JObj(map["CompanyIngest" := JStr("OK")])));
    IngestAllEffects(items, edgar);
  }
}
