/**
 * The filings-queue Lambda: the completion barrier of the workflow's
 * FilingsQueue branch. It peeks at the sentiment queue up to five times,
 * ten seconds apart, looking for messages still tagged with the run's batch id,
 * and resolves the Step Functions task token it was handed: success as soon as
 * one peek sees none, failure "ExecutionTimeout" when all five still see some,
 * failure "ExecutionError" when a client call raises.
 *
 * Every client call is an input: `peeks[k]` is what the k-th receive returned
 * (or the error it raised) and `sfnErrors[k]` says whether the k-th Step
 * Functions call raised. The result is the log of calls the handler made.
 */
module CompletionBarrier {
  import opened Wrappers

  /** `max_attempts` */
  const MaxAttempts: nat := 5
  /** `sleep_time`, in seconds */
  const SleepSeconds: nat := 10
  /** `MaxNumberOfMessages` of each peek */
  const MaxMessages: nat := 10
  /** The message attribute carrying the batch id. */
  const BatchAttribute: string := "batch_id"

  /** A message attribute as SQS returns it. */
  datatype AttributeValue = AttributeValue(dataType: string, stringValue: Option<string>)

  /** A received message; a message without attributes has an empty map. */
  datatype Message = Message(body: string, attributes: map<string, AttributeValue>)

  /** The Lambda event: the Payload the FilingsQueue task builds; absent keys are `None`. */
  datatype Event = Event(taskToken: Option<string>, batchId: Option<string>)

  /** The outcome of one `receive_message` call. A response without "Messages" is `Peeked([])`. */
  datatype Peek = Peeked(messages: seq<Message>) | PeekFailed(reason: string)

  /** The parameters of a `receive_message` call. */
  datatype ReceiveRequest = ReceiveRequest(
    attributeNames: seq<string>,
    messageAttributeNames: seq<string>,
    maxMessages: nat,
    visibilityTimeout: nat,
    waitTimeSeconds: nat)

  /** The one request the handler ever sends: a zero-visibility, no-wait peek of at most ten messages. */
  const PeekRequest: ReceiveRequest := ReceiveRequest(["All"], [BatchAttribute], MaxMessages, 0, 0)

  /** The JSON output handed to `send_task_success`. */
  datatype SuccessOutput = SuccessOutput(status: string, message: string)

  /** A client call the handler makes. */
  datatype Call =
    | Receive(request: ReceiveRequest)
    | Sleep(seconds: nat)
    | SendTaskSuccess(token: string, output: SuccessOutput)
    | SendTaskFailure(token: string, error: string, cause: string)
  {
    predicate IsCallback() { SendTaskSuccess? || SendTaskFailure? }
  }

  /** One invocation: the calls made, in order, and the exception that escaped the handler, if any. */
  datatype Invocation = Invocation(calls: seq<Call>, raised: Option<string>)

  /** Does the message carry the batch id attribute with exactly this string value? */
  predicate Tagged(m: Message, batchId: string) {
    BatchAttribute in m.attributes && m.attributes[BatchAttribute].stringValue == Some(batchId)
  }

  /** The messages of one peek that belong to the batch, in the order received. */
  function Matching(ms: seq<Message>, batchId: string): (r: seq<Message>)
    ensures forall m :: m in r <==> m in ms && Tagged(m, batchId)
    ensures |r| <= |ms|
  {
    if |ms| == 0 then []
    else
      var rest := Matching(ms[1..], batchId);
      assert forall m :: m in ms <==> m == ms[0] || m in ms[1..];
      if Tagged(ms[0], batchId) then [ms[0]] + rest else rest
  }

  /** The k-th peek; a peek beyond the supplied ones returns no messages. */
  function PeekAt(peeks: seq<Peek>, k: nat): Peek {
    if k < |peeks| then peeks[k] else Peeked([])
  }

  /** Whether the k-th Step Functions call raised, and with what text. */
  function SfnError(sfnErrors: seq<Option<string>>, k: nat): Option<string> {
    if k < |sfnErrors| then sfnErrors[k] else None
  }

  /** How the poll loop ended. */
  datatype LoopExit = Drained | Exhausted | Crashed(reason: string)

  /** The loop body from attempt `attempt` on: the calls made and how the loop ended. */
  function PollFrom(batchId: string, peeks: seq<Peek>, attempt: nat): (r: (seq<Call>, LoopExit))
    requires attempt <= MaxAttempts
    decreases MaxAttempts - attempt
  {
    if attempt == MaxAttempts then ([], Exhausted)
    else match PeekAt(peeks, attempt)
      case PeekFailed(e) => ([Receive(PeekRequest)], Crashed(e))
      case Peeked(ms) =>
        if |Matching(ms, batchId)| == 0 then ([Receive(PeekRequest)], Drained)
        else
          var rest := PollFrom(batchId, peeks, attempt + 1);
          ([Receive(PeekRequest), Sleep(SleepSeconds)] + rest.0, rest.1)
  }

  function SuccessMessage(batchId: string): SuccessOutput {
    SuccessOutput("success", "All messages for batch_id " + batchId + " processed")
  }

  function TimeoutCause(batchId: string): string {
    "Timeout waiting for messages with batch_id " + batchId + " to be processed"
  }

  /** The `except Exception` clause: report "ExecutionError" with the exception text; if that call raises, it escapes. */
  function ReportError(token: string, calls: seq<Call>, reason: string, sfnErrors: seq<Option<string>>, k: nat): Invocation {
    Invocation(calls + [SendTaskFailure(token, "ExecutionError", reason)], SfnError(sfnErrors, k))
  }

  /** One Step Functions call made inside the `try`: if it raises, the `except` clause reports it. */
  function CallInTry(token: string, calls: seq<Call>, call: Call, sfnErrors: seq<Option<string>>): Invocation {
    match SfnError(sfnErrors, 0)
    case None => Invocation(calls + [call], None)
    case Some(e) => ReportError(token, calls + [call], e, sfnErrors, 1)
  }

  /** `lambda_handler` of the filings-queue function. */
  function Handle(event: Event, peeks: seq<Peek>, sfnErrors: seq<Option<string>>): Invocation {
    if event.taskToken.None? then Invocation([], Some("KeyError: 'task_token'"))
    else if event.batchId.None? then Invocation([], Some("KeyError: 'batch_id'"))
    else
      var token := event.taskToken.value;
      var batchId := event.batchId.value;
      var loop := PollFrom(batchId, peeks, 0);
      match loop.1
      case Drained => CallInTry(token, loop.0, SendTaskSuccess(token, SuccessMessage(batchId)), sfnErrors)
      case Exhausted => CallInTry(token, loop.0, SendTaskFailure(token, "ExecutionTimeout", TimeoutCause(batchId)), sfnErrors)
      case Crashed(e) => ReportError(token, loop.0, e, sfnErrors, 0)
  }

  // ---------------------------------------------------------------------------
  // Counting calls
  // ---------------------------------------------------------------------------

  function Receives(calls: seq<Call>): nat {
    if |calls| == 0 then 0 else (if calls[0].Receive? then 1 else 0) + Receives(calls[1..])
  }

  function Sleeps(calls: seq<Call>): nat {
    if |calls| == 0 then 0 else (if calls[0].Sleep? then 1 else 0) + Sleeps(calls[1..])
  }

  function Successes(calls: seq<Call>): nat {
    if |calls| == 0 then 0 else (if calls[0].SendTaskSuccess? then 1 else 0) + Successes(calls[1..])
  }

  function Failures(calls: seq<Call>): nat {
    if |calls| == 0 then 0 else (if calls[0].SendTaskFailure? then 1 else 0) + Failures(calls[1..])
  }

  lemma CountsOne(c: Call)
    ensures Receives([c]) == (if c.Receive? then 1 else 0)
    ensures Sleeps([c]) == (if c.Sleep? then 1 else 0)
    ensures Successes([c]) == (if c.SendTaskSuccess? then 1 else 0)
    ensures Failures([c]) == (if c.SendTaskFailure? then 1 else 0)
  {
    assert [c][1..] == [];
  }

  lemma CountsTwo(a: Call, b: Call)
    ensures Receives([a, b]) == Receives([a]) + Receives([b])
    ensures Sleeps([a, b]) == Sleeps([a]) + Sleeps([b])
    ensures Successes([a, b]) == Successes([a]) + Successes([b])
    ensures Failures([a, b]) == Failures([a]) + Failures([b])
  {
    CountsAppend([a], [b]);
    assert [a] + [b] == [a, b];
  }

  /** `k` rounds of "peek, see batch messages, sleep". */
  function Rounds(k: nat): (r: seq<Call>)
    ensures |r| == 2 * k
  {
    if k == 0 then [] else [Receive(PeekRequest), Sleep(SleepSeconds)] + Rounds(k - 1)
  }

  lemma {:induction false} CountsAppend(a: seq<Call>, b: seq<Call>)
    ensures Receives(a + b) == Receives(a) + Receives(b)
    ensures Sleeps(a + b) == Sleeps(a) + Sleeps(b)
    ensures Successes(a + b) == Successes(a) + Successes(b)
    ensures Failures(a + b) == Failures(a) + Failures(b)
    decreases |a|
  {
    if |a| == 0 {
      assert a + b == b;
    } else {
      assert (a + b)[1..] == a[1..] + b;
      CountsAppend(a[1..], b);
    }
  }

  lemma {:induction false} RoundsCounts(k: nat)
    ensures Receives(Rounds(k)) == k && Sleeps(Rounds(k)) == k
    ensures Successes(Rounds(k)) == 0 && Failures(Rounds(k)) == 0
    ensures forall i :: 0 <= i < |Rounds(k)| ==> !Rounds(k)[i].IsCallback()
  {
    if k > 0 {
      RoundsCounts(k - 1);
      CountsAppend([Receive(PeekRequest), Sleep(SleepSeconds)], Rounds(k - 1));
      var r := Rounds(k);
      assert forall i :: 2 <= i < |r| ==> r[i] == Rounds(k - 1)[i - 2];
    }
  }

  // ---------------------------------------------------------------------------
  // Properties
  // ---------------------------------------------------------------------------

  /** Peek `k` returned messages, some of them tagged with the batch. */
  predicate SawBatch(peeks: seq<Peek>, batchId: string, k: nat) {
    PeekAt(peeks, k).Peeked? && |Matching(PeekAt(peeks, k).messages, batchId)| > 0
  }

  /** Peek `k` returned messages, none of them tagged with the batch. */
  predicate SawNone(peeks: seq<Peek>, batchId: string, k: nat) {
    PeekAt(peeks, k).Peeked? && |Matching(PeekAt(peeks, k).messages, batchId)| == 0
  }

  /**
   * The poll loop's log: one round of peek-and-sleep for every peek that saw
   * the batch, then either the stopping peek or, after five rounds, nothing.
   */
  lemma {:induction false} PollFromShape(batchId: string, peeks: seq<Peek>, attempt: nat, stop: nat)
    requires attempt <= stop <= MaxAttempts
    requires forall j :: attempt <= j < stop ==> SawBatch(peeks, batchId, j)
    requires stop < MaxAttempts ==> !SawBatch(peeks, batchId, stop)
    ensures stop == MaxAttempts ==> PollFrom(batchId, peeks, attempt) == (Rounds(stop - attempt), Exhausted)
    ensures stop < MaxAttempts && SawNone(peeks, batchId, stop) ==>
      PollFrom(batchId, peeks, attempt) == (Rounds(stop - attempt) + [Receive(PeekRequest)], Drained)
    ensures stop < MaxAttempts && PeekAt(peeks, stop).PeekFailed? ==>
      PollFrom(batchId, peeks, attempt) == (Rounds(stop - attempt) + [Receive(PeekRequest)], Crashed(PeekAt(peeks, stop).reason))
    decreases stop - attempt
  {
    if attempt < stop {
      PollFromShape(batchId, peeks, attempt + 1, stop);
      var rest := PollFrom(batchId, peeks, attempt + 1);
      var round := [Receive(PeekRequest), Sleep(SleepSeconds)];
      assert SawBatch(peeks, batchId, attempt);
      assert PollFrom(batchId, peeks, attempt) == (round + rest.0, rest.1);
      assert Rounds(stop - attempt) == round + Rounds(stop - attempt - 1);
      assert round + (Rounds(stop - attempt - 1) + [Receive(PeekRequest)])
        == Rounds(stop - attempt) + [Receive(PeekRequest)];
    } else {
      assert Rounds(0) + [Receive(PeekRequest)] == [Receive(PeekRequest)];
    }
  }

  /**
   * The first peek that sees no batch message resolves the token with success:
   * `k` rounds of peek-and-sleep, one more peek, one `send_task_success`, and
   * nothing after it — no further peek, no sleep, no failure.
   */
  lemma DrainedRun(event: Event, peeks: seq<Peek>, sfnErrors: seq<Option<string>>, k: nat)
    requires event.taskToken.Some? && event.batchId.Some?
    requires k < MaxAttempts
    requires forall j :: 0 <= j < k ==> SawBatch(peeks, event.batchId.value, j)
    requires SawNone(peeks, event.batchId.value, k)
    requires SfnError(sfnErrors, 0).None?
    ensures var inv := Handle(event, peeks, sfnErrors);
      && inv.raised.None?
      && inv.calls == Rounds(k) + [Receive(PeekRequest), SendTaskSuccess(event.taskToken.value, SuccessMessage(event.batchId.value))]
      && Receives(inv.calls) == k + 1 && Sleeps(inv.calls) == k
      && Successes(inv.calls) == 1 && Failures(inv.calls) == 0
  {
    var b := event.batchId.value;
    var t := event.taskToken.value;
    PollFromShape(b, peeks, 0, k);
    var inv := Handle(event, peeks, sfnErrors);
    var tail := [Receive(PeekRequest), SendTaskSuccess(t, SuccessMessage(b))];
    assert inv.calls == Rounds(k) + tail;
    RoundsCounts(k);
    CountsAppend(Rounds(k), tail);
    CountsTwo(tail[0], tail[1]);
    CountsOne(tail[0]);
    CountsOne(tail[1]);
  }

  /**
   * When all five peeks still see batch messages: five peeks, five sleeps (one
   * after the last peek too), then one `send_task_failure` "ExecutionTimeout"
   * and no success.
   */
  lemma TimedOutRun(event: Event, peeks: seq<Peek>, sfnErrors: seq<Option<string>>)
    requires event.taskToken.Some? && event.batchId.Some?
    requires forall j :: 0 <= j < MaxAttempts ==> SawBatch(peeks, event.batchId.value, j)
    requires SfnError(sfnErrors, 0).None?
    ensures var inv := Handle(event, peeks, sfnErrors);
      && inv.raised.None?
      && inv.calls == Rounds(MaxAttempts) + [SendTaskFailure(event.taskToken.value, "ExecutionTimeout", TimeoutCause(event.batchId.value))]
      && Receives(inv.calls) == MaxAttempts && Sleeps(inv.calls) == MaxAttempts
      && Successes(inv.calls) == 0 && Failures(inv.calls) == 1
  {
    var b := event.batchId.value;
    var t := event.taskToken.value;
    PollFromShape(b, peeks, 0, MaxAttempts);
    var tail := [SendTaskFailure(t, "ExecutionTimeout", TimeoutCause(b))];
    RoundsCounts(MaxAttempts);
    CountsAppend(Rounds(MaxAttempts), tail);
    CountsOne(tail[0]);
  }

  /**
   * A peek that raises ends the loop: the exception text becomes the cause of
   * one `send_task_failure` "ExecutionError", and no success is sent.
   */
  lemma CrashedRun(event: Event, peeks: seq<Peek>, sfnErrors: seq<Option<string>>, k: nat)
    requires event.taskToken.Some? && event.batchId.Some?
    requires k < MaxAttempts
    requires forall j :: 0 <= j < k ==> SawBatch(peeks, event.batchId.value, j)
    requires PeekAt(peeks, k).PeekFailed?
    ensures var inv := Handle(event, peeks, sfnErrors);
      && inv.calls == Rounds(k) + [Receive(PeekRequest), SendTaskFailure(event.taskToken.value, "ExecutionError", PeekAt(peeks, k).reason)]
      && inv.raised == SfnError(sfnErrors, 0)
      && Successes(inv.calls) == 0 && Failures(inv.calls) == 1
  {
    var b := event.batchId.value;
    var t := event.taskToken.value;
    PollFromShape(b, peeks, 0, k);
    var tail := [Receive(PeekRequest), SendTaskFailure(t, "ExecutionError", PeekAt(peeks, k).reason)];
    RoundsCounts(k);
    CountsAppend(Rounds(k), tail);
    CountsTwo(tail[0], tail[1]);
    CountsOne(tail[0]);
    CountsOne(tail[1]);
  }

  /** A missing `task_token` or `batch_id` raises before the `try`: no peek and no callback. */
  lemma MissingKeyRun(event: Event, peeks: seq<Peek>, sfnErrors: seq<Option<string>>)
    requires event.taskToken.None? || event.batchId.None?
    ensures Handle(event, peeks, sfnErrors).calls == []
    ensures Handle(event, peeks, sfnErrors).raised.Some?
  {
  }

  /** The stopping point of the poll loop: the first peek that did not see the batch, or `MaxAttempts`. */
  lemma FirstStop(batchId: string, peeks: seq<Peek>) returns (stop: nat)
    ensures stop <= MaxAttempts
    ensures forall j :: 0 <= j < stop ==> SawBatch(peeks, batchId, j)
    ensures stop < MaxAttempts ==> !SawBatch(peeks, batchId, stop)
  {
    stop := 0;
    while stop < MaxAttempts && SawBatch(peeks, batchId, stop)
      invariant stop <= MaxAttempts
      invariant forall j :: 0 <= j < stop ==> SawBatch(peeks, batchId, j)
    {
      stop := stop + 1;
    }
  }

  /** The poll loop alone: at most one peek per remaining attempt, a sleep only after a peek, no callback. */
  lemma {:induction false} PollFromBounded(batchId: string, peeks: seq<Peek>, attempt: nat)
    requires attempt <= MaxAttempts
    ensures var calls := PollFrom(batchId, peeks, attempt).0;
      && Receives(calls) <= MaxAttempts - attempt
      && Sleeps(calls) <= Receives(calls)
      && Successes(calls) == 0 && Failures(calls) == 0
      && (forall i :: 0 <= i < |calls| && calls[i].Receive? ==> calls[i].request == PeekRequest)
    decreases MaxAttempts - attempt
  {
    if attempt < MaxAttempts {
      CountsOne(Receive(PeekRequest));
      if SawBatch(peeks, batchId, attempt) {
        PollFromBounded(batchId, peeks, attempt + 1);
        var rest := PollFrom(batchId, peeks, attempt + 1).0;
        var round := [Receive(PeekRequest), Sleep(SleepSeconds)];
        CountsAppend(round, rest);
        CountsTwo(round[0], round[1]);
        CountsOne(round[1]);
        var calls := round + rest;
        assert forall i :: 2 <= i < |calls| ==> calls[i] == rest[i - 2];
      }
    }
  }

  /**
   * Whatever the queue and Step Functions do: at most five peeks, each the
   * zero-visibility ten-message request, and never more sleeps than peeks.
   */
  lemma EveryRunBounded(event: Event, peeks: seq<Peek>, sfnErrors: seq<Option<string>>)
    ensures var inv := Handle(event, peeks, sfnErrors);
      && Receives(inv.calls) <= MaxAttempts
      && Sleeps(inv.calls) <= Receives(inv.calls)
      && (forall i :: 0 <= i < |inv.calls| && inv.calls[i].Receive? ==> inv.calls[i].request == PeekRequest)
  {
    if event.taskToken.Some? && event.batchId.Some? {
      var loop := PollFrom(event.batchId.value, peeks, 0).0;
      PollFromBounded(event.batchId.value, peeks, 0);
      var inv := Handle(event, peeks, sfnErrors);
      var tail := HandleAfterLoop(event, peeks, sfnErrors);
      CallbacksOnly(tail);
      CountsAppend(loop, tail);
    }
  }

  /** After the polling loop the handler only makes callbacks: one, or a failure report after one. */
  lemma HandleAfterLoop(event: Event, peeks: seq<Peek>, sfnErrors: seq<Option<string>>) returns (tail: seq<Call>)
    requires event.taskToken.Some? && event.batchId.Some?
    ensures Handle(event, peeks, sfnErrors).calls == PollFrom(event.batchId.value, peeks, 0).0 + tail
    ensures forall i :: 0 <= i < |tail| ==> tail[i].IsCallback()
  {
    var token := event.taskToken.value;
    var batchId := event.batchId.value;
    var loop := PollFrom(batchId, peeks, 0);
    match loop.1
    case Drained =>
      var call := SendTaskSuccess(token, SuccessMessage(batchId));
      match SfnError(sfnErrors, 0) {
        case None => tail := [call];
        case Some(e) =>
          tail := [call, SendTaskFailure(token, "ExecutionError", e)];
          assert loop.0 + [call] + [tail[1]] == loop.0 + tail;
      }
    case Exhausted =>
      var call := SendTaskFailure(token, "ExecutionTimeout", TimeoutCause(batchId));
      match SfnError(sfnErrors, 0) {
        case None => tail := [call];
        case Some(e) =>
          tail := [call, SendTaskFailure(token, "ExecutionError", e)];
          assert loop.0 + [call] + [tail[1]] == loop.0 + tail;
      }
    case Crashed(e) =>
      tail := [SendTaskFailure(token, "ExecutionError", e)];
  }

  lemma {:induction false} CallbacksOnly(calls: seq<Call>)
    requires forall i :: 0 <= i < |calls| ==> calls[i].IsCallback()
    ensures Receives(calls) == 0 && Sleeps(calls) == 0
  {
    if |calls| > 0 {
      CallbacksOnly(calls[1..]);
    }
  }

  /**
   * When both event keys are present and no Step Functions call raises,
   * exactly one callback — success or failure — is sent, it is the last call,
   * and the handler returns normally.
   */
  lemma ExactlyOneCallback(event: Event, peeks: seq<Peek>, sfnErrors: seq<Option<string>>)
    requires event.taskToken.Some? && event.batchId.Some?
    requires forall k :: 0 <= k < |sfnErrors| ==> sfnErrors[k].None?
    ensures var inv := Handle(event, peeks, sfnErrors);
      && Successes(inv.calls) + Failures(inv.calls) == 1
      && inv.calls[|inv.calls| - 1].IsCallback()
      && (inv.raised.None? || inv.calls[|inv.calls| - 1].SendTaskFailure?)
  {
    var b := event.batchId.value;
    var stop := FirstStop(b, peeks);
    assert SfnError(sfnErrors, 0).None? && SfnError(sfnErrors, 1).None?;
    if stop == MaxAttempts {
      TimedOutRun(event, peeks, sfnErrors);
    } else if PeekAt(peeks, stop).PeekFailed? {
      CrashedRun(event, peeks, sfnErrors, stop);
    } else {
      DrainedRun(event, peeks, sfnErrors, stop);
    }
  }

  // ---------------------------------------------------------------------------
  // Which callbacks reach Step Functions
  // ---------------------------------------------------------------------------

  /**
   * The log as Step Functions sees it: every call except the callbacks that
   * raised. The handler's Step Functions calls are exactly its callbacks, so
   * the callback made after `n` earlier ones raised iff `SfnError(sfnErrors, n)`.
   */
  function Delivered(calls: seq<Call>, sfnErrors: seq<Option<string>>, n: nat): (r: seq<Call>)
    ensures |r| <= |calls|
    ensures forall i :: 0 <= i < |r| ==> r[i] in calls
  {
    if |calls| == 0 then []
    else
      var rest := Delivered(calls[1..], sfnErrors, if calls[0].IsCallback() then n + 1 else n);
      assert forall c :: c in rest ==> c in calls;
      if calls[0].IsCallback() && SfnError(sfnErrors, n).Some? then rest else [calls[0]] + rest
  }

  /** When no Step Functions call from the `n`-th on raises, every call is delivered. */
  lemma {:induction false} DeliveredAll(calls: seq<Call>, sfnErrors: seq<Option<string>>, n: nat)
    requires forall k :: n <= k ==> SfnError(sfnErrors, k).None?
    ensures Delivered(calls, sfnErrors, n) == calls
    decreases |calls|
  {
    if |calls| > 0 {
      DeliveredAll(calls[1..], sfnErrors, if calls[0].IsCallback() then n + 1 else n);
      assert [calls[0]] + calls[1..] == calls;
    }
  }

  /** A stretch of log without callbacks is delivered as it is, and does not shift the numbering. */
  lemma {:induction false} DeliveredPlain(calls: seq<Call>, later: seq<Call>, sfnErrors: seq<Option<string>>, n: nat)
    requires forall i :: 0 <= i < |calls| ==> !calls[i].IsCallback()
    ensures Delivered(calls + later, sfnErrors, n) == calls + Delivered(later, sfnErrors, n)
    decreases |calls|
  {
    if |calls| == 0 {
      assert calls + later == later;
    } else {
      assert (calls + later)[1..] == calls[1..] + later;
      assert (calls + later)[0] == calls[0];
      DeliveredPlain(calls[1..], later, sfnErrors, n);
      assert [calls[0]] + (calls[1..] + Delivered(later, sfnErrors, n)) == calls + Delivered(later, sfnErrors, n);
    }
  }

  /** A log that counts no success and no failure holds no callback. */
  lemma {:induction false} NoCallbacks(calls: seq<Call>)
    requires Successes(calls) == 0 && Failures(calls) == 0
    ensures forall i :: 0 <= i < |calls| ==> !calls[i].IsCallback()
  {
    if |calls| > 0 {
      NoCallbacks(calls[1..]);
      assert forall i :: 1 <= i < |calls| ==> calls[i] == calls[1..][i - 1];
    }
  }

  /**
   * What the handler reports about the poll loop's end: success when the
   * batch drained, "ExecutionTimeout" after five tagged polls, and
   * "ExecutionError" with the exception text when a peek raised.
   */
  function Intended(exit: LoopExit, token: string, batchId: string): Call {
    match exit
    case Drained => SendTaskSuccess(token, SuccessMessage(batchId))
    case Exhausted => SendTaskFailure(token, "ExecutionTimeout", TimeoutCause(batchId))
    case Crashed(e) => SendTaskFailure(token, "ExecutionError", e)
  }

  /**
   * The callbacks of one invocation that reach Step Functions, after the
   * poll loop's own calls: the intended callback when it does not raise; when
   * it raises inside the `try` and the `except` clause's report does not,
   * that report; otherwise none at all. A peek that raises is already
   * reported by the `except` clause, so its one callback is the report.
   */
  lemma DeliveredCallbacks(event: Event, peeks: seq<Peek>, sfnErrors: seq<Option<string>>)
    requires event.taskToken.Some? && event.batchId.Some?
    ensures var t := event.taskToken.value;
      var loop := PollFrom(event.batchId.value, peeks, 0);
      var first := Intended(loop.1, t, event.batchId.value);
      && (forall i :: 0 <= i < |loop.0| ==> !loop.0[i].IsCallback())
      && Delivered(Handle(event, peeks, sfnErrors).calls, sfnErrors, 0) == loop.0 +
           (if SfnError(sfnErrors, 0).None? then [first]
            else if loop.1.Crashed? || SfnError(sfnErrors, 1).Some? then []
            else [SendTaskFailure(t, "ExecutionError", SfnError(sfnErrors, 0).value)])
  {
    var t := event.taskToken.value;
    var loop := PollFrom(event.batchId.value, peeks, 0);
    PollFromBounded(event.batchId.value, peeks, 0);
    NoCallbacks(loop.0);
    var first := Intended(loop.1, t, event.batchId.value);
    var tail := if loop.1.Crashed? || SfnError(sfnErrors, 0).None? then [first]
                else [first, SendTaskFailure(t, "ExecutionError", SfnError(sfnErrors, 0).value)];
    assert Handle(event, peeks, sfnErrors).calls == loop.0 + tail;
    DeliveredPlain(loop.0, tail, sfnErrors, 0);
    if |tail| == 2 {
      assert tail[1..][1..] == [];
    }
  }

  /**
   * "Success" is not "the queue is empty": a peek that returns nothing but
   * another batch's messages — or that misses messages a consumer holds
   * invisible — resolves the token with success.
   */
  lemma SuccessDespiteQueuedMessages(token: string, batchId: string, other: Message)
    requires !Tagged(other, batchId)
    ensures Handle(Event(Some(token), Some(batchId)), [Peeked([other])], []).calls
      == [Receive(PeekRequest), SendTaskSuccess(token, SuccessMessage(batchId))]
  {
    assert Matching([other], batchId) == [];
  }
}
