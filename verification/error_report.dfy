/**
 * The error-handler Lambda: it turns the event it is given into an error
 * report and tries to store it in S3. The clock readings are inputs, and so is
 * whether the S3 write raises.
 */
module ErrorReport {
  import opened Json
  import opened Runtime

  /** The fixed bucket reports go to. */
  const ReportBucket: string := "sec-filings"
  const ReportFolder: string := "pipeline-reports/"
  const ReportSuffix: string := "-errors.json"
  const UnknownError: string := "Unknown error"
  const UnknownCause: string := "Unknown cause"

  /** The report: exactly execution_arn, state_name, error, cause and timestamp. */
  function Report(arn: Json, stateName: Json, error: Json, cause: Json, timestamp: string): (r: map<string, Json>)
    ensures r.Keys == {"execution_arn", "state_name", "error", "cause", "timestamp"}
    ensures r["execution_arn"] == arn && r["state_name"] == stateName && r["error"] == error && r["cause"] == cause
    ensures r["timestamp"] == JStr(timestamp)
  {
    map["execution_arn" := arn, "state_name" := stateName, "error" := error, "cause" := cause,
        "timestamp" := JStr(timestamp)]
  }

  /** The S3 key of a report written at `compactTime` (the "%Y%m%d-%H%M%S" rendering of the clock). */
  function ReportKey(compactTime: string): (k: string)
    ensures |k| == |ReportFolder| + |compactTime| + |ReportSuffix|
    ensures k[..|ReportFolder|] == ReportFolder
    ensures k[|ReportFolder|..|k| - |ReportSuffix|] == compactTime
    ensures k[|k| - |ReportSuffix|..] == ReportSuffix
  {
    ReportFolder + compactTime + ReportSuffix
  }

  /** Report keys are distinct for distinct clock renderings. */
  lemma ReportKeyInjective(t1: string, t2: string)
    requires ReportKey(t1) == ReportKey(t2)
    ensures t1 == t2
  {
    var k := ReportKey(t1);
    assert t1 == k[|ReportFolder|..|k| - |ReportSuffix|];
  }

  /** The `put_object` call. */
  datatype Put = Put(bucket: string, key: string, body: map<string, Json>, contentType: string)

  /** What one invocation did: the writes it attempted, whether the write went through, and how it ended. */
  datatype Invocation = Invocation(attempted: seq<Put>, saved: bool, exit: Exit)

  /**
   * `lambda_handler`. `isoTime` is `datetime.utcnow().isoformat()`,
   * `compactTime` the key's rendering of `datetime.now(UTC)`, and `putFails`
   * says whether `put_object` raises.
   */
  function Handle(event: Json, isoTime: string, compactTime: string, putFails: bool): Invocation {
    var execution := Subscript(event, "Execution");
    if execution.Raise? then Invocation([], false, execution)
    else
      var arn := Subscript(execution.value, "Id");
      if arn.Raise? then Invocation([], false, arn)
      else
        var stateName := Subscript(execution.value, "Name");
        if stateName.Raise? then Invocation([], false, stateName)
        else
          var error := GetOr(event, "Error", JStr(UnknownError)).value;
          var cause := GetOr(event, "Cause", JStr(UnknownCause)).value;
          var report := Report(arn.value, stateName.value, error, cause, isoTime);
          Invocation([Put(ReportBucket, ReportKey(compactTime), report, "application/json")], !putFails, Return(JNull))
  }

  /** The event carries `Execution` with `Id` and `Name`. */
  predicate HasExecution(event: Json) {
    && event.JObj? && "Execution" in event.fields
    && event.fields["Execution"].JObj?
    && "Id" in event.fields["Execution"].fields
    && "Name" in event.fields["Execution"].fields
  }

  /**
   * A report is written exactly when the event carries `Execution.Id` and
   * `Execution.Name`; `Error` and `Cause` fall back to "Unknown error" and
   * "Unknown cause". Otherwise the handler raises before writing anything.
   */
  lemma HandleReports(event: Json, isoTime: string, compactTime: string, putFails: bool)
    ensures var inv := Handle(event, isoTime, compactTime, putFails);
      inv.exit.Return? <==> HasExecution(event)
    ensures var inv := Handle(event, isoTime, compactTime, putFails);
      HasExecution(event) ==>
        && |inv.attempted| == 1
        && inv.attempted[0].bucket == ReportBucket
        && inv.attempted[0].key == ReportKey(compactTime)
        && inv.attempted[0].body["execution_arn"] == event.fields["Execution"].fields["Id"]
        && inv.attempted[0].body["state_name"] == event.fields["Execution"].fields["Name"]
        && inv.attempted[0].body["error"] == (if "Error" in event.fields then event.fields["Error"] else JStr(UnknownError))
        && inv.attempted[0].body["cause"] == (if "Cause" in event.fields then event.fields["Cause"] else JStr(UnknownCause))
        && inv.attempted[0].body["timestamp"] == JStr(isoTime)
    ensures var inv := Handle(event, isoTime, compactTime, putFails);
      !HasExecution(event) ==> inv.attempted == [] && inv.exit.Raise? && !inv.saved
  {
  }

  /** A failed write is swallowed: the handler ends the same way whether or not `put_object` raises. */
  lemma WriteFailureSwallowed(event: Json, isoTime: string, compactTime: string)
    ensures Handle(event, isoTime, compactTime, true).exit == Handle(event, isoTime, compactTime, false).exit
    ensures Handle(event, isoTime, compactTime, true).attempted == Handle(event, isoTime, compactTime, false).attempted
    ensures Handle(event, isoTime, compactTime, false).saved <==> HasExecution(event)
    ensures !Handle(event, isoTime, compactTime, true).saved
  {
  }

  /**
   * An event without `Execution` — such as the {"Error", "Cause"} object a
   * Catch hands on — makes the handler raise KeyError 'Execution' and write nothing.
   */
  lemma NoExecutionNoReport(fields: map<string, Json>, isoTime: string, compactTime: string, putFails: bool)
    requires "Execution" !in fields
    ensures Handle(JObj(fields), isoTime, compactTime, putFails) == Invocation([], false, Raise("KeyError", "'Execution'"))
  {
  }
}
