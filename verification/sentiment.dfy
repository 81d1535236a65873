/**
 * The sentiment consumer (src/sentiment/handler.py). It is fed by the filings
 * queue; for every queued message it draws a sentiment label and writes it
 * onto the filing's row of `company_filings`, one connection and one commit per
 * record. A missing or empty record list is answered with status 204; the
 * first record that fails stops the rest, and every failure leaves the handler
 * as an InternalServerError.
 *
 * The random label is an oracle indexed by the record's position; the score
 * floats that accompany it are never stored and are not modelled. JSON
 * decoding of a message body, the connection, and the update-and-commit are
 * oracles too.
 */
module Sentiment {
  import opened Wrappers
  import opened Json
  import opened Runtime

  // ---------------------------------------------------------------------------
  // Labels and updates
  // ---------------------------------------------------------------------------

  datatype Label = Positive | Neutral | Negative

  /** The three labels the mock analysis chooses from, in the order it lists them. */
  const LabelNames: seq<string> := ["POSITIVE", "NEUTRAL", "NEGATIVE"]

  function Name(choice: Label): (name: string)
    ensures name in LabelNames
  {
    match choice
    case Positive => LabelNames[0]
    case Neutral => LabelNames[1]
    case Negative => LabelNames[2]
  }

  /** Distinct labels are stored as distinct strings, and every stored string is some label's. */
  lemma NamesAreLabels()
    ensures forall a: Label, b: Label :: Name(a) == Name(b) ==> a == b
    ensures forall s :: s in LabelNames ==> exists l: Label :: Name(l) == s
  {
    assert Name(Positive) == "POSITIVE";
    assert Name(Neutral) == "NEUTRAL";
    assert Name(Negative) == "NEGATIVE";
  }

  /**
   * `UPDATE company_filings SET sentiment = … WHERE cik = … AND
   * accession_number = …`: the row is picked by the message's two fields and
   * only its sentiment column changes.
   */
  datatype Update = Update(cik: Json, accession: Json, sentiment: string)

  /**
   * The effects the handler cannot compute itself. `decode` is `json.loads`
   * (a `Raise` carries the decoder's error); `draw` is the random choice made
   * for the record at that position; `connect` and `write` are `None` when
   * `psycopg2.connect` and the execute-and-commit succeed for that record, and
   * carry the `psycopg2.Error` message when they raise.
   */
  datatype Env = Env(decode: string -> Exit, draw: nat -> Label,
                     connect: nat -> Option<string>, write: nat -> Option<string>)

  /** One record's fate: its update was committed, or it raised with this `str(e)`. */
  datatype Step = Wrote(update: Update) | Stopped(message: string)

  // ---------------------------------------------------------------------------
  // save_sentiment_to_db
  // ---------------------------------------------------------------------------

  /**
   * Writes the record at position `i`. Database errors come back as
   * "DatabaseConnectionError: …"; a message without `cik` or
   * `accession_number` is a KeyError (a TypeError when it is not an object),
   * which the function does not reclassify.
   */
  function Save(message: Json, choice: Label, i: nat, env: Env): (r: Step)
    ensures r.Wrote? <==>
      env.connect(i).None? && env.write(i).None? &&
      message.JObj? && "cik" in message.fields && "accession_number" in message.fields
    ensures r.Wrote? ==>
      r.update == Update(message.fields["cik"], message.fields["accession_number"], Name(choice))
    ensures env.connect(i).Some? ==> r == Stopped("DatabaseConnectionError: " + env.connect(i).value)
    ensures env.connect(i).None? && message.JObj? && "cik" !in message.fields ==> r == Stopped("'cik'")
  {
    if env.connect(i).Some? then Stopped("DatabaseConnectionError: " + env.connect(i).value)
    else match Subscript(message, "cik")
      case Raise(_, error) => Stopped(error)
      case Return(cik) =>
        match Subscript(message, "accession_number")
        case Raise(_, error) => Stopped(error)
        case Return(accession) =>
          if env.write(i).Some? then Stopped("DatabaseConnectionError: " + env.write(i).value)
          else Wrote(Update(cik, accession, Name(choice)))
  }

  // ---------------------------------------------------------------------------
  // One record
  // ---------------------------------------------------------------------------

  /** The record at position `i`: its body, decoded, with a freshly drawn label. */
  function Process(record: Json, i: nat, env: Env): (r: Step)
    ensures r.Wrote? ==> record.JObj? && "body" in record.fields && record.fields["body"].JStr?
    ensures r.Wrote? ==> r.update.sentiment == Name(env.draw(i))
  {
    match Subscript(record, "body")
    case Raise(_, error) => Stopped(error)
    case Return(body) =>
      if !body.JStr? then Stopped("the JSON object must be str, bytes or bytearray, not " + TypeName(body))
      else match env.decode(body.s)
        case Raise(_, error) => Stopped(error)
        case Return(message) => Save(message, env.draw(i), i, env)
  }

  /** The records from position `i` on, stopping at the first that fails. */
  datatype Run = Run(updates: seq<Update>, failure: Option<string>)

  /**
   * The loop over the records, each handled by `step` (which the handler
   * instantiates with `Process`) given its position.
   */
  function Records(records: seq<Json>, i: nat, step: (Json, nat) -> Step): (r: Run)
    ensures |r.updates| <= |records|
  {
    if |records| == 0 then Run([], None)
    else match step(records[0], i)
      case Stopped(error) => Run([], Some(error))
      case Wrote(u) =>
        var rest := Records(records[1..], i + 1, step);
        Run([u] + rest.updates, rest.failure)
  }

  /**
   * The records are written in order, one update each, up to the first that
   * fails; that record's error is the run's failure, and nothing after it is
   * written. A run without failure wrote every record.
   */
  lemma {:induction false} RecordsStopAtFirstFailure(records: seq<Json>, i: nat, step: (Json, nat) -> Step)
    ensures var r := Records(records, i, step);
      && (forall k :: 0 <= k < |r.updates| ==> step(records[k], i + k) == Wrote(r.updates[k]))
      && (r.failure.None? <==> |r.updates| == |records|)
      && (r.failure.Some? ==> step(records[|r.updates|], i + |r.updates|) == Stopped(r.failure.value))
    decreases |records|
  {
    if |records| > 0 {
      var tail := records[1..];
      RecordsStopAtFirstFailure(tail, i + 1, step);
      var r := Records(records, i, step);
      if step(records[0], i).Wrote? {
        var rest := Records(tail, i + 1, step);
        assert r.updates == [step(records[0], i).update] + rest.updates;
        forall k | 0 < k < |r.updates|
          ensures step(records[k], i + k) == Wrote(r.updates[k])
        {
          assert records[k] == tail[k - 1] && r.updates[k] == rest.updates[k - 1];
        }
        if rest.failure.Some? {
          assert records[|r.updates|] == tail[|rest.updates|];
        }
      }
    }
  }

  /** Every record succeeds exactly when the run reports no failure. */
  lemma RecordsAllWritten(records: seq<Json>, step: (Json, nat) -> Step)
    ensures Records(records, 0, step).failure.None? <==>
      forall k :: 0 <= k < |records| ==> step(records[k], k).Wrote?
  {
    RecordsStopAtFirstFailure(records, 0, step);
    var r := Records(records, 0, step);
    if r.failure.Some? {
      assert !step(records[|r.updates|], |r.updates|).Wrote?;
    }
  }

  /** The step the handler applies to each record. */
  function Processor(env: Env): (Json, nat) -> Step {
    (record: Json, i: nat) => Process(record, i, env)
  }

  // ---------------------------------------------------------------------------
  // lambda_handler
  // ---------------------------------------------------------------------------

  /** `w` occurs in `s` as a contiguous piece (Python's `w in s` on strings). */
  function Occurs(w: string, s: string): (r: bool)
    decreases |s|
  {
    if |s| < |w| then false
    else s[..|w|] == w || (|s| > 0 && Occurs(w, s[1..]))
  }

  /** `w` sits in `s` at offset `k`. */
  predicate At(w: string, s: string, k: nat) {
    k + |w| <= |s| && s[k..k + |w|] == w
  }

  lemma {:induction false} OccursAt(w: string, s: string)
    ensures Occurs(w, s) <==> exists k: nat :: At(w, s, k)
    decreases |s|
  {
    if |s| < |w| {
      forall k: nat ensures !At(w, s, k) {
      }
    } else {
      if s[..|w|] == w {
        assert At(w, s, 0);
      }
      if |s| > 0 {
        OccursAt(w, s[1..]);
        if Occurs(w, s[1..]) {
          var k: nat :| At(w, s[1..], k);
          assert s[k + 1..k + 1 + |w|] == s[1..][k..k + |w|];
          assert At(w, s, k + 1);
        }
        forall k: nat | At(w, s, k) && k > 0
          ensures At(w, s[1..], k - 1)
        {
          assert s[1..][k - 1..k - 1 + |w|] == s[k..k + |w|];
        }
      } else {
        assert At(w, s, 0);
      }
    }
  }

  /** `'Records' in event`: a key test on an object, a membership or substring test on a list or string. */
  function HasRecords(event: Json): (r: Exit)
    ensures r.Return? <==> event.JObj? || event.JArr? || event.JStr?
    ensures event.JObj? ==> r == Return(JBool("Records" in event.fields))
    ensures r.Return? ==> r.value.JBool?
  {
    match event
    case JObj(fields) => Return(JBool("Records" in fields))
    case JArr(items) => Return(JBool(JStr("Records") in items))
    case JStr(s) => Return(JBool(Occurs("Records", s)))
    case _ => Raise("TypeError", "argument of type '" + TypeName(event) + "' is not iterable")
  }

  const NoMessages: Json :=
    JObj(map["statusCode" := JNum(204), "body" := JStr("{\"message\": \"No messages in event\"}")])

  const Processed: Json :=
    JObj(map["statusCode" := JNum(200), "body" := JStr("{\"message\": \"Processed successfully\"}")])

  datatype Invocation = Invocation(updates: seq<Update>, exit: Exit)

  function Handle(event: Json, env: Env): (r: Invocation)
    ensures r.exit.Raise? ==> r.exit.errorType == "Exception"
    ensures r.exit.Return? ==> r.exit.value == NoMessages || r.exit.value == Processed
  {
    match HasRecords(event)
    case Raise(_, error) => Invocation([], Wrap("InternalServerError", error))
    case Return(present) =>
      if !present.b then Invocation([], Return(NoMessages))
      else match Subscript(event, "Records")
        case Raise(_, error) => Invocation([], Wrap("InternalServerError", error))
        case Return(records) =>
          if !Truthy(records) then Invocation([], Return(NoMessages))
          else match Iterate(records)
            case None => Invocation([], Wrap("InternalServerError", "'" + TypeName(records) + "' object is not iterable"))
            case Some(items) =>
              var run := Records(items, 0, Processor(env));
              if run.failure.Some? then Invocation(run.updates, Wrap("InternalServerError", run.failure.value))
              else Invocation(run.updates, Return(Processed))
  }

  /**
   * An object event is answered with 204 exactly when it has no `Records` or
   * an empty (falsy) one, and then nothing is written.
   */
  lemma NoMessagesWritesNothing(fields: map<string, Json>, env: Env)
    ensures var r := Handle(JObj(fields), env);
      && (r.exit == Return(NoMessages) <==> "Records" !in fields || !Truthy(fields["Records"]))
      && (r.exit == Return(NoMessages) ==> r.updates == [])
  {
    assert NoMessages != Processed by {
      assert NoMessages.fields["statusCode"] != Processed.fields["statusCode"];
    }
  }

  /**
   * With a non-empty list of records, the handler writes them in order up to
   * the first failure; it answers 200 exactly when every record was written,
   * one update each, and otherwise raises InternalServerError with the
   * failing record's error.
   */
  lemma HandleRecords(fields: map<string, Json>, items: seq<Json>, env: Env)
    requires "Records" in fields && fields["Records"] == JArr(items) && |items| > 0
    ensures var r := Handle(JObj(fields), env);
      && (r.exit == Return(Processed) <==> forall k :: 0 <= k < |items| ==> Process(items[k], k, env).Wrote?)
      && (r.exit == Return(Processed) ==> |r.updates| == |items|)
      && (forall k :: 0 <= k < |r.updates| ==> Process(items[k], k, env) == Wrote(r.updates[k]))
      && (r.exit.Raise? ==> |r.updates| < |items|)
      && (r.exit.Raise? ==> Process(items[|r.updates|], |r.updates|, env).Stopped?)
      && (r.exit.Raise? ==>
            r.exit == Wrap("InternalServerError", Process(items[|r.updates|], |r.updates|, env).message))
  {
    RecordsStopAtFirstFailure(items, 0, Processor(env));
    RecordsAllWritten(items, Processor(env));
  }

  /**
   * A well-formed message whose connection and write succeed becomes one
   * update of its filing's sentiment to the drawn label.
   */
  lemma WellFormedRecordWrites(record: Json, i: nat, env: Env, body: string, cik: Json, accession: Json)
    requires record.JObj? && "body" in record.fields && record.fields["body"] == JStr(body)
    requires env.decode(body).Return? && env.decode(body).value.JObj?
    requires var m := env.decode(body).value.fields;
      "cik" in m && m["cik"] == cik && "accession_number" in m && m["accession_number"] == accession
    requires env.connect(i).None? && env.write(i).None?
    ensures Process(record, i, env) == Wrote(Update(cik, accession, Name(env.draw(i))))
  {
  }
}
