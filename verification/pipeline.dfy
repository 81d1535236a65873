/**
 * The SEC-filings state machine as it is declared: the five-stage main line
 * CompanyIngest → CompanyProc → FilingsIngest → ParallelProcessing → FinalReport,
 * the ParallelProcessing branches Embeddings and FilingsQueue, and the
 * ErrorHandler every top-level failure is caught into.
 *
 * Lambda ARNs are represented by the Lambda's name.
 */
module Pipeline {
  import opened Wrappers
  import opened Json
  import opened Asl
  import Barrier = CompletionBarrier
  import ErrorReport
  import Runtime

  /** The companies the workflow ingests (Apple, Microsoft, Amazon, Meta, Alphabet). */
  const CikList: seq<string> := ["320193", "789019", "1018724", "1326801", "1652044"]

  const CikListJson: Json := JArr([JStr("320193"), JStr("789019"), JStr("1018724"), JStr("1326801"), JStr("1652044")])

  /** The one retrier every retrying state declares. */
  const StandardRetry: Retrier := Retrier([StatesTaskFailed], 30, 2, 2.0)

  /** The one catcher every top-level state but ErrorHandler declares. */
  const ToErrorHandler: Catcher := Catcher([StatesAll], "ErrorHandler")

  /** `{"cik_list": CIK_LIST}` */
  const CikListParameters: Template := Object([Field("cik_list", Literal(CikListJson))])

  /** `{"file_names.$": "$.file_names"}` */
  const EmbeddingsParameters: Template := Object([Field("file_names", Select(InputField("file_names")))])

  /** `{"FunctionName": ..., "Payload": {"batch_id.$": "$.batch_id", "task_token.$": "$$.Task.Token"}}` */
  const FilingsQueueParameters: Template :=
    Object([Field("FunctionName", Literal(JStr("filings-queue"))),
            Field("Payload", Object([Field("batch_id", Select(InputField("batch_id"))),
                                     Field("task_token", Select(TaskToken))]))])

  const CompanyIngest: State :=
    Task(Lambda("company-ingest"), Some(CikListParameters), Next("CompanyProc"), [StandardRetry], [ToErrorHandler])
  const CompanyProc: State :=
    Task(Lambda("company-proc"), Some(CikListParameters), Next("FilingsIngest"), [StandardRetry], [ToErrorHandler])
  const FilingsIngest: State :=
    Task(Lambda("filings-ingest"), None, Next("ParallelProcessing"), [StandardRetry], [ToErrorHandler])
  const Embeddings: State :=
    Task(Lambda("embeddings"), Some(EmbeddingsParameters), End, [StandardRetry], [])
  const FilingsQueue: State :=
    Task(LambdaWaitForTaskToken, Some(FilingsQueueParameters), End, [StandardRetry], [])
  const EmbeddingsBranch: Machine := Machine("Embeddings", [NamedState("Embeddings", Embeddings)])
  const FilingsQueueBranch: Machine := Machine("FilingsQueue", [NamedState("FilingsQueue", FilingsQueue)])
  const ParallelProcessing: State :=
    Parallel([EmbeddingsBranch, FilingsQueueBranch], Next("FinalReport"), [], [ToErrorHandler])
  const FinalReport: State :=
    Task(Lambda("final-report"), None, End, [StandardRetry], [ToErrorHandler])
  const ErrorHandler: State :=
    Task(Lambda("error-handler"), None, End, [], [])

  /** An ErrorHandler state of the shape declared: a plain Lambda task that ends, with no Retry and no Catch. */
  predicate Sink(eh: State) {
    eh.Task? && eh.resource.Lambda? && eh.transition == End && eh.retry == [] && eh.catch == []
  }

  /** The "SEC Filings Workflow" state machine, with `eh` as its ErrorHandler state. */
  function Workflow(eh: State): Machine {
    Machine("CompanyIngest", [
      NamedState("CompanyIngest", CompanyIngest),
      NamedState("CompanyProc", CompanyProc),
      NamedState("FilingsIngest", FilingsIngest),
      NamedState("ParallelProcessing", ParallelProcessing),
      NamedState("FinalReport", FinalReport),
      NamedState("ErrorHandler", eh)])
  }

  /** The workflow as declared. */
  const Definition: Machine := Workflow(ErrorHandler)

  const MainLine: seq<string> := ["CompanyIngest", "CompanyProc", "FilingsIngest", "ParallelProcessing", "FinalReport"]

  // ---------------------------------------------------------------------------
  // Shape of the graph
  // ---------------------------------------------------------------------------

  /** Follow `Next` from `at` for at most `steps` states; the names visited, ending at an `End` state. */
  function FollowNext(m: Machine, at: string, steps: nat): seq<string>
    decreases steps
  {
    if steps == 0 then []
    else match Find(m.states, at)
      case None => []
      case Some(s) =>
        [at] + (match s.transition
                case End => []
                case Next(t) => FollowNext(m, t, steps - 1))
  }

  /** The six top-level state names are pairwise different. */
  lemma NamesDistinct(eh: State)
    requires Sink(eh)
    ensures forall i, j :: 0 <= i < j < |Workflow(eh).states| ==> Workflow(eh).states[i].name != Workflow(eh).states[j].name
  {
    var st := Workflow(eh).states;
    assert st[0].name[1] == 'o' && st[2].name[1] == 'i' && st[3].name[1] == 'a' && st[5].name[1] == 'r';
    assert st[1].name[0] == 'C' && st[4].name[0] == 'F';
    assert |st[0].name| == 13 && |st[1].name| == 11 && |st[2].name| == 13;
    assert |st[3].name| == 18 && |st[4].name| == 11 && |st[5].name| == 12;
  }

  lemma FindAt(states: seq<NamedState>, i: nat)
    requires i < |states|
    requires forall j :: 0 <= j < i ==> states[j].name != states[i].name
    ensures Find(states, states[i].name) == Some(states[i].state)
    decreases i
  {
    if i > 0 {
      FindAt(states[1..], i - 1);
    }
  }

  lemma FindEach(eh: State)
    requires Sink(eh)
    ensures Find(Workflow(eh).states, "CompanyIngest") == Some(CompanyIngest)
    ensures Find(Workflow(eh).states, "CompanyProc") == Some(CompanyProc)
    ensures Find(Workflow(eh).states, "FilingsIngest") == Some(FilingsIngest)
    ensures Find(Workflow(eh).states, "ParallelProcessing") == Some(ParallelProcessing)
    ensures Find(Workflow(eh).states, "FinalReport") == Some(FinalReport)
    ensures Find(Workflow(eh).states, "ErrorHandler") == Some(eh)
  {
    FindDeclared(eh, 0);
    FindDeclared(eh, 1);
    FindDeclared(eh, 2);
    FindDeclared(eh, 3);
    FindDeclared(eh, 4);
    FindDeclared(eh, 5);
  }

  /** The `k`-th declared state is found under its own name. */
  lemma FindDeclared(eh: State, k: nat)
    requires Sink(eh) && k < |Workflow(eh).states|
    ensures Find(Workflow(eh).states, Workflow(eh).states[k].name) == Some(Workflow(eh).states[k].state)
  {
    NamesDistinct(eh);
    FindAt(Workflow(eh).states, k);
  }

  /**
   * The main line: from `StartAt`, `Next` leads through the five stages in
   * order to FinalReport, which ends the machine (however many steps are allowed).
   */
  lemma MainLineOrder(eh: State, steps: nat)
    requires Sink(eh)
    requires steps >= 5
    ensures FollowNext(Workflow(eh), Workflow(eh).startAt, steps) == MainLine
  {
    MainLineLinked(eh);
    MainLineLinkedAll(eh);
    FollowChain(Workflow(eh), MainLine, steps);
  }

  lemma MainLineLinkedAll(eh: State)
    requires Sink(eh)
    ensures forall i :: 0 <= i < |MainLine| - 1 ==> Linked(Workflow(eh), MainLine, i)
  {
    forall i | 0 <= i < |MainLine| - 1
      ensures Linked(Workflow(eh), MainLine, i)
    {
      LinkedAt(eh, i);
    }
  }

  lemma MainLineLinked(eh: State)
    requires Sink(eh)
    ensures Linked(Workflow(eh), MainLine, 0) && Linked(Workflow(eh), MainLine, 1)
    ensures Linked(Workflow(eh), MainLine, 2) && Linked(Workflow(eh), MainLine, 3)
    ensures Find(Workflow(eh).states, MainLine[4]).Some? && Find(Workflow(eh).states, MainLine[4]).value.transition == End
  {
    LinkedAt(eh, 0);
    LinkedAt(eh, 1);
    LinkedAt(eh, 2);
    LinkedAt(eh, 3);
    MainLineEnds(eh);
  }

  /** The `i`-th main-line state is found and its `Next` is the next main-line name. */
  lemma LinkedAt(eh: State, i: nat)
    requires Sink(eh) && i < |MainLine| - 1
    ensures Linked(Workflow(eh), MainLine, i)
  {
    var st := Workflow(eh).states;
    FindMain(eh);
    assert st[i].state.transition == Next(MainLine[i + 1]) by {
      assert i == 0 || i == 1 || i == 2 || i == 3;
    }
  }

  /** The last main-line state, FinalReport, is found and ends the machine. */
  lemma MainLineEnds(eh: State)
    requires Sink(eh)
    ensures Find(Workflow(eh).states, MainLine[4]).Some? && Find(Workflow(eh).states, MainLine[4]).value.transition == End
  {
    FindMain(eh);
    assert Workflow(eh).states[4].state.transition == End;
  }

  /** The main-line names are the first five declared, each found as the state declared under it. */
  lemma FindMain(eh: State)
    requires Sink(eh)
    ensures forall i :: 0 <= i < |MainLine| ==> Find(Workflow(eh).states, MainLine[i]) == Some(Workflow(eh).states[i].state)
  {
    var st := Workflow(eh).states;
    NamesDistinct(eh);
    forall i | 0 <= i < |MainLine|
      ensures Find(st, MainLine[i]) == Some(st[i].state)
    {
      assert MainLine[i] == st[i].name;
      FindAt(st, i);
    }
  }

  /** State `names[i]` exists and its `Next` is `names[i + 1]`. */
  predicate Linked(m: Machine, names: seq<string>, i: nat)
    requires i + 1 < |names|
  {
    var s := Find(m.states, names[i]);
    s.Some? && s.value.transition == Next(names[i + 1])
  }

  /** Following `Next` along a linked chain whose last state ends visits exactly the chain. */
  lemma {:induction false} FollowChain(m: Machine, names: seq<string>, steps: nat)
    requires |names| >= 1 && steps >= |names|
    requires forall i :: 0 <= i < |names| - 1 ==> Linked(m, names, i)
    requires Find(m.states, names[|names| - 1]).Some? && Find(m.states, names[|names| - 1]).value.transition == End
    ensures FollowNext(m, names[0], steps) == names
    decreases |names|
  {
    if |names| > 1 {
      forall i | 0 <= i < |names[1..]| - 1
        ensures Linked(m, names[1..], i)
      {
        assert Linked(m, names, i + 1);
      }
      FollowChain(m, names[1..], steps - 1);
      assert FollowNext(m, names[1], steps - 1) == names[1..];
      assert Linked(m, names, 0);
      var s := Find(m.states, names[0]).value;
      assert s.transition == Next(names[1]);
      FollowStep(m, names[0], s, steps);
      assert FollowNext(m, names[0], steps) == [names[0]] + names[1..];
      assert names == [names[0]] + names[1..];
    } else {
      FollowStep(m, names[0], Find(m.states, names[0]).value, steps);
      assert FollowNext(m, names[0], steps) == [names[0]];
      assert names == [names[0]];
    }
  }

  lemma FollowStep(m: Machine, at: string, s: State, steps: nat)
    requires Find(m.states, at) == Some(s) && steps >= 1
    ensures FollowNext(m, at, steps) ==
      [at] + (match s.transition case End => [] case Next(t) => FollowNext(m, t, steps - 1))
  {
  }

  /** A single-state branch whose state ends is well formed. */
  lemma SingleTaskBranch(b: Machine)
    requires |b.states| == 1 && b.states[0].name == b.startAt
    requires b.states[0].state.Task? && b.states[0].state.transition == End && b.states[0].state.catch == []
    requires b.states[0].state.retry == [StandardRetry]
    ensures WellFormed(b)
  {
    assert Defines(b, b.startAt);
    assert RetryMatchers([StandardRetry]) == [[StatesTaskFailed]];
    assert CatchMatchers([]) == [];
    assert StateWellFormed(b, b.states[0]);
  }

  /** The declared definition satisfies the structural rules: every `Next` and catcher target resolves, names are unique. */
  lemma WorkflowWellFormed(eh: State)
    requires Sink(eh)
    ensures WellFormed(Workflow(eh))
  {
    var d := Workflow(eh);
    var st := d.states;
    NamesDistinct(eh);
    assert Defines(d, "CompanyProc") by { assert st[1].name == "CompanyProc"; }
    assert Defines(d, "FilingsIngest") by { assert st[2].name == "FilingsIngest"; }
    assert Defines(d, "ParallelProcessing") by { assert st[3].name == "ParallelProcessing"; }
    assert Defines(d, "FinalReport") by { assert st[4].name == "FinalReport"; }
    assert Defines(d, "ErrorHandler") by { assert st[5].name == "ErrorHandler"; }
    assert Defines(d, d.startAt) by { assert st[0].name == "CompanyIngest"; }
    assert RetryMatchers([StandardRetry]) == [[StatesTaskFailed]];
    assert RetryMatchers([]) == [];
    assert CatchMatchers([ToErrorHandler]) == [[StatesAll]];
    assert CatchMatchers([]) == [];
    SingleTaskBranch(EmbeddingsBranch);
    SingleTaskBranch(FilingsQueueBranch);
    assert StateWellFormed(d, st[0]);
    assert StateWellFormed(d, st[1]);
    assert StateWellFormed(d, st[2]);
    assert StateWellFormed(d, st[3]);
    assert StateWellFormed(d, st[4]);
    assert StateWellFormed(d, st[5]);
  }

  /** Every top-level state other than ErrorHandler catches "States.ALL" into ErrorHandler. */
  lemma CatchesGoToErrorHandler(eh: State)
    requires Sink(eh)
    ensures forall i :: 0 <= i < |Workflow(eh).states| && Workflow(eh).states[i].name != "ErrorHandler" ==>
      Workflow(eh).states[i].state.catch == [ToErrorHandler]
    ensures forall e :: Matches(ToErrorHandler.errorEquals, e) <==> e != StatesRuntime
  {
    forall e ensures Matches(ToErrorHandler.errorEquals, e) <==> e != StatesRuntime {
      AllMatcher(e);
    }
  }

  /**
   * ErrorHandler ends the machine and has no Retry and no Catch: a run that
   * enters it invokes it at most once (once unless its `Parameters` fail) and
   * ends with exactly what that invocation gave.
   */
  lemma ErrorHandlerAbsorbing(eh: State, input: Json, ctx: Context, oracle: Oracle, fuel: nat)
    requires Sink(eh) && fuel >= 1
    ensures var run := RunFrom(Workflow(eh), "ErrorHandler", input, ctx, oracle, fuel);
      match EffectiveInput(eh, input, ctx, None)
      case None => run.trace == [] && run.result.Failed? && run.result.error == StatesRuntime
      case Some(eff) =>
        && run.trace == [Invoked("ErrorHandler", 0, eff)]
        && match oracle(Invocation("ErrorHandler", 0, eff))
           case Returned(out) => run.result == Succeeded(out)
           case Raised(e, c) => run.result == Failed(e, c)
  {
    FindErrorHandler(eh);
    SinkEntered(Workflow(eh), "ErrorHandler", eh, input, ctx, oracle, fuel);
  }

  lemma FindErrorHandler(eh: State)
    requires Sink(eh)
    ensures Find(Workflow(eh).states, "ErrorHandler") == Some(eh)
  {
    NamesDistinct(eh);
    FindAt(Workflow(eh).states, 5);
  }

  /** Entering a sink state: one invocation (unless its `Parameters` fail), whose outcome is the run's. */
  lemma SinkEntered(m: Machine, at: string, s: State, input: Json, ctx: Context, oracle: Oracle, fuel: nat)
    requires Find(m.states, at) == Some(s) && Sink(s) && fuel >= 1
    ensures var run := RunFrom(m, at, input, ctx, oracle, fuel);
      match EffectiveInput(s, input, ctx, None)
      case None => run.trace == [] && run.result.Failed? && run.result.error == StatesRuntime
      case Some(eff) =>
        && run.trace == [Invoked(at, 0, eff)]
        && match oracle(Invocation(at, 0, eff))
           case Returned(out) => run.result == Succeeded(out)
           case Raised(e, c) => run.result == Failed(e, c)
  {
    RunFromFound(m, at, s, input, ctx, oracle, fuel);
    SinkRun(m, at, s, input, ctx, oracle, fuel - 1);
  }

  /** The declared ErrorHandler hands its input to the Lambda unchanged. */
  lemma DeclaredErrorHandler(input: Json, ctx: Context)
    ensures Sink(ErrorHandler)
    ensures EffectiveInput(ErrorHandler, input, ctx, None) == Some(input)
  {
  }

  /** Entering a state that exists costs one unit of fuel and starts its first attempt with fresh retry counters. */
  lemma RunFromFound(m: Machine, at: string, s: State, input: Json, ctx: Context, oracle: Oracle, fuel: nat)
    requires Find(m.states, at) == Some(s) && fuel >= 1
    ensures RunFrom(m, at, input, ctx, oracle, fuel) == Execute(m, at, s, input, map[], 0, ctx, oracle, fuel - 1)
  {
  }

  /** A sink Task: one invocation (unless its `Parameters` fail), whose outcome is the run's. */
  lemma SinkRun(m: Machine, name: string, s: State, input: Json, ctx: Context, oracle: Oracle, fuel: nat)
    requires Sink(s)
    ensures var run := Execute(m, name, s, input, map[], 0, ctx, oracle, fuel);
      match EffectiveInput(s, input, ctx, None)
      case None => run.trace == [] && run.result.Failed? && run.result.error == StatesRuntime
      case Some(eff) =>
        && run.trace == [Invoked(name, 0, eff)]
        && match oracle(Invocation(name, 0, eff))
           case Returned(out) => run.result == Succeeded(out)
           case Raised(e, c) => run.result == Failed(e, c)
  {
    assert StateAttempt(name, s, input, 0, ctx, oracle, fuel) == TaskAttempt(name, s, input, 0, ctx, oracle);
    assert RetryMatchers([]) == [] && CatchMatchers([]) == [];
  }

  /**
   * Every state that retries uses ["States.TaskFailed"], 30 s, 2 attempts,
   * rate 2.0: at most two retries, waiting 30 s and then 60 s.
   */
  lemma RetrySchedule(eh: State)
    requires Sink(eh)
    ensures forall i :: 0 <= i < |Workflow(eh).states| ==> Workflow(eh).states[i].state.retry in {[], [StandardRetry]}
    ensures Embeddings.retry == [StandardRetry] && FilingsQueue.retry == [StandardRetry]
    ensures StandardRetry.maxAttempts == 2
    ensures Schedule(StandardRetry, 1, 2) == [30.0, 60.0]
  {
    assert Pow(2.0, 1) == 2.0;
  }

  /**
   * ParallelProcessing has exactly the branches Embeddings and FilingsQueue, in
   * that order, each a single Task that retries but catches nothing: a branch
   * failure surfaces to ParallelProcessing's own Catch.
   */
  lemma ParallelShape()
    ensures ParallelProcessing.branches == [EmbeddingsBranch, FilingsQueueBranch]
    ensures forall b :: b in ParallelProcessing.branches ==>
      |b.states| == 1 && b.states[0].name == b.startAt &&
      b.states[0].state.Task? && b.states[0].state.catch == [] && b.states[0].state.retry == [StandardRetry]
    ensures ParallelProcessing.catch == [ToErrorHandler]
  {
  }

  /**
   * When both branches succeed, ParallelProcessing's result is the list
   * [Embeddings output, FilingsQueue output].
   */
  lemma ParallelOutputOrder(input: Json, ctx: Context, oracle: Oracle, fuel: nat)
    requires RunFrom(EmbeddingsBranch, "Embeddings", input, ctx, oracle, fuel).result.Succeeded?
    requires RunFrom(FilingsQueueBranch, "FilingsQueue", input, ctx, oracle, fuel).result.Succeeded?
    ensures StateAttempt("ParallelProcessing", ParallelProcessing, input, 0, ctx, oracle, fuel).result
         == Succeeded(JArr([RunFrom(EmbeddingsBranch, "Embeddings", input, ctx, oracle, fuel).result.output,
                            RunFrom(FilingsQueueBranch, "FilingsQueue", input, ctx, oracle, fuel).result.output]))
  {
    var bs := ParallelProcessing.branches;
    BranchesJoinInOrder(bs, 0, input, ctx, oracle, fuel);
    var outs := Branches(bs, 0, input, ctx, oracle, fuel).join.outputs;
    assert outs == [outs[0], outs[1]];
  }

  /** A branch failure (Embeddings first) becomes ParallelProcessing's failure. */
  lemma ParallelFailure(input: Json, ctx: Context, oracle: Oracle, fuel: nat)
    requires RunFrom(EmbeddingsBranch, "Embeddings", input, ctx, oracle, fuel).result.Failed? ||
      (RunFrom(EmbeddingsBranch, "Embeddings", input, ctx, oracle, fuel).result.Succeeded? &&
       RunFrom(FilingsQueueBranch, "FilingsQueue", input, ctx, oracle, fuel).result.Failed?)
    ensures var e := RunFrom(EmbeddingsBranch, "Embeddings", input, ctx, oracle, fuel).result;
      var f := RunFrom(FilingsQueueBranch, "FilingsQueue", input, ctx, oracle, fuel).result;
      var failed := if e.Failed? then e else f;
      StateAttempt("ParallelProcessing", ParallelProcessing, input, 0, ctx, oracle, fuel).result
        == Failed(failed.error, failed.cause)
  {
    var bs := ParallelProcessing.branches;
    if RunFrom(bs[0], bs[0].startAt, input, ctx, oracle, fuel).result.Failed? {
      BranchFailureSurfaces(bs, 0, 0, input, ctx, oracle, fuel);
    } else {
      BranchFailureSurfaces(bs, 0, 1, input, ctx, oracle, fuel);
    }
  }

  // ---------------------------------------------------------------------------
  // What each stage is handed
  // ---------------------------------------------------------------------------

  /**
   * CompanyIngest and CompanyProc ignore their input and receive
   * {"cik_list": CIK_LIST}; Embeddings receives only the `file_names` of its
   * input (and a missing `file_names` is a States.Runtime error); FilingsQueue
   * receives its function name and a payload of `batch_id` and the task token.
   */
  lemma StageInputs(input: Json, ctx: Context, token: Option<string>)
    ensures EffectiveInput(CompanyIngest, input, ctx, token) == Some(JObj(map["cik_list" := CikListJson]))
    ensures EffectiveInput(CompanyProc, input, ctx, token) == Some(JObj(map["cik_list" := CikListJson]))
    ensures EffectiveInput(FilingsIngest, input, ctx, token) == Some(input)
    ensures EffectiveInput(Embeddings, input, ctx, token) ==
      if input.JObj? && "file_names" in input.fields
      then Some(JObj(map["file_names" := input.fields["file_names"]]))
      else None
    ensures EffectiveInput(FilingsQueue, input, ctx, token) ==
      if input.JObj? && "batch_id" in input.fields && token.Some?
      then Some(JObj(map["FunctionName" := JStr("filings-queue"),
                         "Payload" := JObj(map["batch_id" := input.fields["batch_id"],
                                               "task_token" := JStr(token.value)])]))
      else None
  {
    OneField("cik_list", Literal(CikListJson), input, ctx, token);
    OneField("file_names", Select(InputField("file_names")), input, ctx, token);
    TwoFields("batch_id", Select(InputField("batch_id")), "task_token", Select(TaskToken), input, ctx, token);
    TwoFields("FunctionName", Literal(JStr("filings-queue")), "Payload",
              Object([Field("batch_id", Select(InputField("batch_id"))), Field("task_token", Select(TaskToken))]),
              input, ctx, token);
  }

  /** A one-field object template yields a one-key object, or fails with its field. */
  lemma OneField(k: string, v: Template, input: Json, ctx: Context, token: Option<string>)
    ensures Instantiate(Object([Field(k, v)]), input, ctx, token) ==
      match Instantiate(v, input, ctx, token)
      case None => None
      case Some(x) => Some(JObj(map[k := x]))
  {
    var t := Object([Field(k, v)]);
    assert InstantiateFields(t, 0, input, ctx, token) == Some(map[]);
    assert map[][k := Instantiate(v, input, ctx, token).GetOr(JNull)] == map[k := Instantiate(v, input, ctx, token).GetOr(JNull)];
  }

  /** A two-field object template with distinct keys yields a two-key object, or fails with a field. */
  lemma TwoFields(k1: string, v1: Template, k2: string, v2: Template, input: Json, ctx: Context, token: Option<string>)
    ensures Instantiate(Object([Field(k1, v1), Field(k2, v2)]), input, ctx, token) ==
      match (Instantiate(v1, input, ctx, token), Instantiate(v2, input, ctx, token))
      case (Some(x1), Some(x2)) => Some(JObj(map[k1 := x1, k2 := x2]))
      case _ => None
  {
    var t := Object([Field(k1, v1), Field(k2, v2)]);
    assert InstantiateFields(t, 0, input, ctx, token) == Some(map[]);
    var x1 := Instantiate(v1, input, ctx, token).GetOr(JNull);
    assert map[][k1 := x1] == map[k1 := x1];
    assert InstantiateFields(t, 1, input, ctx, token) ==
      (if Instantiate(v1, input, ctx, token).Some? then Some(map[k1 := x1]) else None);
  }

  /** FilingsQueue is the only callback task, and its token is always minted. */
  lemma OnlyCallbackTask(eh: State)
    requires Sink(eh)
    ensures forall i :: 0 <= i < |Workflow(eh).states| ==>
      Workflow(eh).states[i].state.Task? ==> Workflow(eh).states[i].state.resource.Lambda?
    ensures Embeddings.resource.Lambda? && FilingsQueue.resource == LambdaWaitForTaskToken
  {
  }

  // ---------------------------------------------------------------------------
  // Every run ends, and every failure but a runtime error goes through ErrorHandler
  // ---------------------------------------------------------------------------

  predicate LastInvoked(trace: seq<Event>, name: string) {
    |trace| > 0 && trace[|trace| - 1].Invoked? && trace[|trace| - 1].state == name
  }

  /**
   * A run that ended (did not run out of fuel); at the top level (`top`) a
   * failure must moreover be a States.Runtime error or ErrorHandler's own.
   */
  predicate Settled(r: Run, top: bool) {
    && !r.result.OutOfFuel?
    && (top && r.result.Failed? ==> r.result.error == StatesRuntime || LastInvoked(r.trace, "ErrorHandler"))
  }

  lemma SettledPrepend(t: seq<Event>, r: Run, top: bool)
    requires Settled(r, top)
    ensures Settled(Prepend(t, r), top)
  {
    if top && r.result.Failed? && r.result.error != StatesRuntime {
      assert (t + r.trace)[|t + r.trace| - 1] == r.trace[|r.trace| - 1];
    }
  }

  /**
   * A Task with the standard retrier, having used `used` retries, settles
   * given enough fuel for its retries and for whatever follows it.
   */
  lemma {:induction false} TaskSettles(m: Machine, name: string, s: State, input: Json, used: nat, attempt: nat,
                                       ctx: Context, oracle: Oracle, fuel: nat, low: nat, top: bool)
    requires s.Task? && s.retry == [StandardRetry] && used <= 2
    requires s.catch == [] || s.catch == [ToErrorHandler]
    requires top ==> s.catch == [ToErrorHandler]
    requires fuel >= low + 2 - used
    requires s.transition.Next? ==>
      forall inp: Json, f: nat :: f >= low ==> Settled(RunFrom(m, s.transition.target, inp, ctx, oracle, f), top)
    requires s.catch != [] ==>
      forall inp: Json, f: nat :: f >= low ==> Settled(RunFrom(m, "ErrorHandler", inp, ctx, oracle, f), top)
    ensures Settled(Execute(m, name, s, input, map[0 := used], attempt, ctx, oracle, fuel), top)
    decreases 2 - used
  {
    var a := TaskAttempt(name, s, input, attempt, ctx, oracle);
    match a.result
    case Succeeded(out) =>
      TaskSucceededStep(m, name, s, input, map[0 := used], attempt, ctx, oracle, fuel);
      if s.transition.Next? {
        SettledPrepend(a.trace, RunFrom(m, s.transition.target, out, ctx, oracle, fuel), top);
      }
    case Failed(e, c) =>
      if Matches([StatesTaskFailed], e) && used < 2 {
        RetryStep(m, name, s, input, used, attempt, ctx, oracle, fuel);
        TaskSettles(m, name, s, input, used + 1, attempt + 1, ctx, oracle, fuel - 1, low, top);
        SettledPrepend(a.trace + [Retrying(name, used + 1, RetryDelay(StandardRetry, used + 1))],
                       Execute(m, name, s, input, map[0 := used + 1], attempt + 1, ctx, oracle, fuel - 1), top);
      } else {
        if s.catch != [] && e != StatesRuntime {
          NotRetriedCaught(m, name, s, input, used, attempt, ctx, oracle, fuel);
          SettledPrepend(a.trace + [Caught(name, e, "ErrorHandler")],
                         RunFrom(m, "ErrorHandler", ErrorOutput(e, c), ctx, oracle, fuel), top);
        } else {
          NotRetriedFails(m, name, s, input, used, attempt, ctx, oracle, fuel);
        }
      }
  }

  /** A succeeding Task attempt moves on to `Next`, or ends the run. */
  lemma TaskSucceededStep(m: Machine, name: string, s: State, input: Json, counts: map<nat, nat>, attempt: nat,
                          ctx: Context, oracle: Oracle, fuel: nat)
    requires s.Task? && TaskAttempt(name, s, input, attempt, ctx, oracle).result.Succeeded?
    ensures var a := TaskAttempt(name, s, input, attempt, ctx, oracle);
      Execute(m, name, s, input, counts, attempt, ctx, oracle, fuel) ==
        match s.transition
        case End => a
        case Next(t) => Prepend(a.trace, RunFrom(m, t, a.result.output, ctx, oracle, fuel))
  {
    assert StateAttempt(name, s, input, attempt, ctx, oracle, fuel) == TaskAttempt(name, s, input, attempt, ctx, oracle);
  }

  /**
   * A failure the standard retrier does not take (another error, or no
   * retries left) and that is not States.Runtime goes to ErrorHandler when
   * the state catches "States.ALL".
   */
  lemma NotRetriedCaught(m: Machine, name: string, s: State, input: Json, used: nat, attempt: nat,
                         ctx: Context, oracle: Oracle, fuel: nat)
    requires s.Task? && s.retry == [StandardRetry] && s.catch == [ToErrorHandler]
    requires var r := TaskAttempt(name, s, input, attempt, ctx, oracle).result;
      r.Failed? && !(Matches([StatesTaskFailed], r.error) && used < 2) && r.error != StatesRuntime
    ensures var a := TaskAttempt(name, s, input, attempt, ctx, oracle);
      Execute(m, name, s, input, map[0 := used], attempt, ctx, oracle, fuel) ==
        Prepend(a.trace + [Caught(name, a.result.error, "ErrorHandler")],
                RunFrom(m, "ErrorHandler", ErrorOutput(a.result.error, a.result.cause), ctx, oracle, fuel))
  {
    var a := TaskAttempt(name, s, input, attempt, ctx, oracle);
    assert StateAttempt(name, s, input, attempt, ctx, oracle, fuel) == a;
    assert RetryMatchers(s.retry) == [[StatesTaskFailed]];
    AllMatcher(a.result.error);
    assert CatchMatchers(s.catch) == [[StatesAll]];
  }

  /**
   * A failure the standard retrier does not take fails the run when the state
   * has no Catch, or when it is States.Runtime, which "States.ALL" does not match.
   */
  lemma NotRetriedFails(m: Machine, name: string, s: State, input: Json, used: nat, attempt: nat,
                        ctx: Context, oracle: Oracle, fuel: nat)
    requires s.Task? && s.retry == [StandardRetry]
    requires s.catch == [] || s.catch == [ToErrorHandler]
    requires var r := TaskAttempt(name, s, input, attempt, ctx, oracle).result;
      r.Failed? && !(Matches([StatesTaskFailed], r.error) && used < 2) && (s.catch == [] || r.error == StatesRuntime)
    ensures Execute(m, name, s, input, map[0 := used], attempt, ctx, oracle, fuel) == TaskAttempt(name, s, input, attempt, ctx, oracle)
  {
    var a := TaskAttempt(name, s, input, attempt, ctx, oracle);
    assert StateAttempt(name, s, input, attempt, ctx, oracle, fuel) == a;
    assert RetryMatchers(s.retry) == [[StatesTaskFailed]];
    if s.catch != [] {
      AllMatcher(a.result.error);
      assert CatchMatchers(s.catch) == [[StatesAll]];
    } else {
      assert CatchMatchers(s.catch) == [];
    }
  }

  lemma ErrorHandlerSettles(eh: State, input: Json, ctx: Context, oracle: Oracle, fuel: nat, top: bool)
    requires Sink(eh)
    requires fuel >= 1
    ensures Settled(RunFrom(Workflow(eh), "ErrorHandler", input, ctx, oracle, fuel), top)
  {
    ErrorHandlerAbsorbing(eh, input, ctx, oracle, fuel);
  }

  lemma AllErrorHandlerSettles(eh: State, ctx: Context, oracle: Oracle, top: bool)
    requires Sink(eh)
    ensures forall inp: Json, f: nat :: f >= 1 ==> Settled(RunFrom(Workflow(eh), "ErrorHandler", inp, ctx, oracle, f), top)
  {
    forall inp: Json, f: nat | f >= 1
      ensures Settled(RunFrom(Workflow(eh), "ErrorHandler", inp, ctx, oracle, f), top)
    {
      ErrorHandlerSettles(eh, inp, ctx, oracle, f, top);
    }
  }

  /** A fresh retry counter and a counter at zero behave alike. */
  lemma ExecuteFromFresh(m: Machine, name: string, s: State, input: Json, ctx: Context, oracle: Oracle, fuel: nat)
    requires s.Task? && |s.retry| == 1
    ensures Execute(m, name, s, input, map[], 0, ctx, oracle, fuel) == Execute(m, name, s, input, map[0 := 0], 0, ctx, oracle, fuel)
  {
    assert map[][0 := 1] == map[0 := 0][0 := 1];
  }

  /**
   * Entering a Task with the standard retrier: with fuel for its retries and
   * for whatever follows it, the run from it settles.
   */
  lemma TaskEntrySettles(m: Machine, at: string, s: State, input: Json, ctx: Context, oracle: Oracle,
                         fuel: nat, low: nat, top: bool)
    requires Find(m.states, at) == Some(s)
    requires s.Task? && s.retry == [StandardRetry]
    requires s.catch == [] || s.catch == [ToErrorHandler]
    requires top ==> s.catch == [ToErrorHandler]
    requires fuel >= low + 3
    requires s.transition.Next? ==>
      forall inp: Json, f: nat :: f >= low ==> Settled(RunFrom(m, s.transition.target, inp, ctx, oracle, f), top)
    requires s.catch != [] ==>
      forall inp: Json, f: nat :: f >= low ==> Settled(RunFrom(m, "ErrorHandler", inp, ctx, oracle, f), top)
    ensures Settled(RunFrom(m, at, input, ctx, oracle, fuel), top)
  {
    RunFromFound(m, at, s, input, ctx, oracle, fuel);
    ExecuteFromFresh(m, at, s, input, ctx, oracle, fuel - 1);
    TaskSettles(m, at, s, input, 0, 0, ctx, oracle, fuel - 1, low, top);
  }

  /** A branch with fuel of at least 3 always finishes. */
  lemma BranchSettles(b: Machine, input: Json, ctx: Context, oracle: Oracle, fuel: nat)
    requires b in ParallelProcessing.branches && fuel >= 3
    ensures Settled(RunFrom(b, b.startAt, input, ctx, oracle, fuel), false)
  {
    FindAt(b.states, 0);
    TaskEntrySettles(b, b.startAt, b.states[0].state, input, ctx, oracle, fuel, 0, false);
  }

  lemma {:induction false} BranchesSettle(input: Json, ctx: Context, oracle: Oracle, fuel: nat, i: nat)
    requires fuel >= 3 && i <= 2
    ensures !Branches(ParallelProcessing.branches, i, input, ctx, oracle, fuel).join.BranchOutOfFuel?
    decreases 2 - i
  {
    var bs := ParallelProcessing.branches;
    if i < 2 {
      BranchSettles(bs[i], input, ctx, oracle, fuel);
      BranchesSettle(input, ctx, oracle, fuel, i + 1);
    }
  }

  /** Entering the `k`-th declared state: its first attempt with fresh counters, one unit of fuel spent. */
  lemma Enter(eh: State, k: nat, input: Json, ctx: Context, oracle: Oracle, fuel: nat)
    requires Sink(eh) && k < |Workflow(eh).states| && fuel >= 1
    ensures var st := Workflow(eh).states[k];
      RunFrom(Workflow(eh), st.name, input, ctx, oracle, fuel) == Execute(Workflow(eh), st.name, st.state, input, map[], 0, ctx, oracle, fuel - 1)
  {
    FindDeclared(eh, k);
    RunFromFound(Workflow(eh), Workflow(eh).states[k].name, Workflow(eh).states[k].state, input, ctx, oracle, fuel);
  }

  /** How much fuel a run from each main-line state needs. */
  lemma FinalReportSettles(eh: State, input: Json, ctx: Context, oracle: Oracle, fuel: nat)
    requires Sink(eh)
    requires fuel >= 4
    ensures Settled(RunFrom(Workflow(eh), "FinalReport", input, ctx, oracle, fuel), true)
  {
    FindDeclared(eh, 4);
    AllErrorHandlerSettles(eh, ctx, oracle, true);
    TaskEntrySettles(Workflow(eh), "FinalReport", FinalReport, input, ctx, oracle, fuel, 1, true);
  }

  /**
   * A Parallel state without Retry whose one catcher is "States.ALL": success
   * moves on, a States.Runtime failure fails the run, any other failure is
   * caught into ErrorHandler.
   */
  lemma ParallelStep(m: Machine, name: string, s: State, input: Json, ctx: Context, oracle: Oracle, fuel: nat)
    requires s.Parallel? && s.retry == [] && s.catch == [ToErrorHandler] && s.transition.Next?
    ensures var a := StateAttempt(name, s, input, 0, ctx, oracle, fuel);
      var run := Execute(m, name, s, input, map[], 0, ctx, oracle, fuel);
      && (a.result.OutOfFuel? ==> run == a)
      && (a.result.Succeeded? ==> run == Prepend(a.trace, RunFrom(m, s.transition.target, a.result.output, ctx, oracle, fuel)))
      && (a.result.Failed? && a.result.error == StatesRuntime ==> run == a)
      && (a.result.Failed? && a.result.error != StatesRuntime ==>
            run == Prepend(a.trace + [Caught(name, a.result.error, "ErrorHandler")],
                           RunFrom(m, "ErrorHandler", ErrorOutput(a.result.error, a.result.cause), ctx, oracle, fuel)))
  {
    var a := StateAttempt(name, s, input, 0, ctx, oracle, fuel);
    assert RetryMatchers([]) == [];
    assert CatchMatchers([ToErrorHandler]) == [[StatesAll]];
    if a.result.Failed? {
      AllMatcher(a.result.error);
    }
  }

  lemma ParallelSettles(eh: State, input: Json, ctx: Context, oracle: Oracle, fuel: nat)
    requires Sink(eh)
    requires fuel >= 5
    ensures Settled(RunFrom(Workflow(eh), "ParallelProcessing", input, ctx, oracle, fuel), true)
  {
    var f := fuel - 1;
    Enter(eh, 3, input, ctx, oracle, fuel);
    ParallelStep(Workflow(eh), "ParallelProcessing", ParallelProcessing, input, ctx, oracle, f);
    var a := StateAttempt("ParallelProcessing", ParallelProcessing, input, 0, ctx, oracle, f);
    BranchesSettle(input, ctx, oracle, f, 0);
    match a.result
    case Succeeded(out) =>
      FinalReportSettles(eh, out, ctx, oracle, f);
      SettledPrepend(a.trace, RunFrom(Workflow(eh), "FinalReport", out, ctx, oracle, f), true);
    case Failed(e, c) =>
      if e != StatesRuntime {
        ErrorHandlerSettles(eh, ErrorOutput(e, c), ctx, oracle, f, true);
        SettledPrepend(a.trace + [Caught("ParallelProcessing", e, "ErrorHandler")],
                       RunFrom(Workflow(eh), "ErrorHandler", ErrorOutput(e, c), ctx, oracle, f), true);
      }
    case OutOfFuel =>
  }

  lemma FilingsIngestSettles(eh: State, input: Json, ctx: Context, oracle: Oracle, fuel: nat)
    requires Sink(eh)
    requires fuel >= 8
    ensures Settled(RunFrom(Workflow(eh), "FilingsIngest", input, ctx, oracle, fuel), true)
  {
    FindDeclared(eh, 2);
    AllErrorHandlerSettles(eh, ctx, oracle, true);
    forall inp: Json, f: nat | f >= 5
      ensures Settled(RunFrom(Workflow(eh), "ParallelProcessing", inp, ctx, oracle, f), true)
    {
      ParallelSettles(eh, inp, ctx, oracle, f);
    }
    TaskEntrySettles(Workflow(eh), "FilingsIngest", FilingsIngest, input, ctx, oracle, fuel, 5, true);
  }

  lemma CompanyProcSettles(eh: State, input: Json, ctx: Context, oracle: Oracle, fuel: nat)
    requires Sink(eh)
    requires fuel >= 11
    ensures Settled(RunFrom(Workflow(eh), "CompanyProc", input, ctx, oracle, fuel), true)
  {
    FindDeclared(eh, 1);
    AllErrorHandlerSettles(eh, ctx, oracle, true);
    forall inp: Json, f: nat | f >= 8
      ensures Settled(RunFrom(Workflow(eh), "FilingsIngest", inp, ctx, oracle, f), true)
    {
      FilingsIngestSettles(eh, inp, ctx, oracle, f);
    }
    TaskEntrySettles(Workflow(eh), "CompanyProc", CompanyProc, input, ctx, oracle, fuel, 8, true);
  }

  lemma CompanyIngestSettles(eh: State, input: Json, ctx: Context, oracle: Oracle, fuel: nat)
    requires Sink(eh)
    requires fuel >= 14
    ensures Settled(RunFrom(Workflow(eh), "CompanyIngest", input, ctx, oracle, fuel), true)
  {
    FindDeclared(eh, 0);
    AllErrorHandlerSettles(eh, ctx, oracle, true);
    forall inp: Json, f: nat | f >= 11
      ensures Settled(RunFrom(Workflow(eh), "CompanyProc", inp, ctx, oracle, f), true)
    {
      CompanyProcSettles(eh, inp, ctx, oracle, f);
    }
    TaskEntrySettles(Workflow(eh), "CompanyIngest", CompanyIngest, input, ctx, oracle, fuel, 11, true);
  }

  /** Fuel enough for any run of the definition. */
  const Fuel: nat := 14

  /**
   * Every path reaches an end: whatever the stages do, a run of the workflow
   * finishes, and if it fails then the failure is a States.Runtime error
   * (which no Catch can handle) or ErrorHandler's own — every stage failure
   * is routed to ErrorHandler.
   */
  lemma EveryRunSettles(eh: State, input: Json, ctx: Context, oracle: Oracle)
    requires Sink(eh)
    ensures Settled(RunMachine(Workflow(eh), input, ctx, oracle, Fuel), true)
  {
    CompanyIngestSettles(eh, input, ctx, oracle, Fuel);
  }

  // ---------------------------------------------------------------------------
  // The FilingsQueue callback
  // ---------------------------------------------------------------------------

  /** The JSON output of `send_task_success`. */
  function SuccessJson(o: Barrier.SuccessOutput): Json {
    JObj(map["status" := JStr(o.status), "message" := JStr(o.message)])
  }

  /**
   * How Step Functions resolves a task token from the calls that reached it
   * (a callback whose client call raised never did; see Barrier.Delivered):
   * the first callback addressed to it decides; later ones are refused, a
   * token being single use.
   */
  function Resolution(calls: seq<Barrier.Call>, token: string): (r: Option<StageOutcome>)
    ensures r.None? <==> forall i :: 0 <= i < |calls| ==> !(calls[i].IsCallback() && calls[i].token == token)
  {
    if |calls| == 0 then None
    else if calls[0].IsCallback() && calls[0].token == token then
      (match calls[0]
       case SendTaskSuccess(_, o) => Some(Returned(SuccessJson(o)))
       case SendTaskFailure(_, e, c) => Some(Raised(e, c)))
    else
      var r := Resolution(calls[1..], token);
      assert forall i :: 1 <= i < |calls| ==> calls[i] == calls[1..][i - 1];
      r
  }

  /** Callbacks delivered after the token is resolved change nothing. */
  lemma {:induction false} ResolutionSingleUse(calls: seq<Barrier.Call>, later: seq<Barrier.Call>, token: string)
    requires Resolution(calls, token).Some?
    ensures Resolution(calls + later, token) == Resolution(calls, token)
  {
    assert |calls| > 0;
    if !(calls[0].IsCallback() && calls[0].token == token) {
      assert (calls + later)[1..] == calls[1..] + later;
      ResolutionSingleUse(calls[1..], later, token);
    }
  }

  /** The outcome of a callback. */
  function CallbackOutcome(c: Barrier.Call): StageOutcome
    requires c.IsCallback()
  {
    match c
    case SendTaskSuccess(_, o) => Returned(SuccessJson(o))
    case SendTaskFailure(_, e, cause) => Raised(e, cause)
  }

  /**
   * What one barrier invocation makes of the FilingsQueue task: the
   * resolution of its token by the callbacks that reached Step Functions;
   * `None` while the token stays unresolved.
   */
  function BarrierOutcome(event: Barrier.Event, peeks: seq<Barrier.Peek>, sfnErrors: seq<Option<string>>): Option<StageOutcome>
    requires event.taskToken.Some?
  {
    Resolution(Barrier.Delivered(Barrier.Handle(event, peeks, sfnErrors).calls, sfnErrors, 0), event.taskToken.value)
  }

  /**
   * Every barrier invocation that reads both keys: the intended outcome when
   * its callback goes through; an "ExecutionError" carrying the Step
   * Functions error when that callback raised inside the `try` and the
   * `except` clause's report went through; and an unresolved token when the
   * only or the second callback raised too.
   */
  lemma BarrierOutcomes(event: Barrier.Event, peeks: seq<Barrier.Peek>, sfnErrors: seq<Option<string>>)
    requires event.taskToken.Some? && event.batchId.Some?
    ensures var exit := Barrier.PollFrom(event.batchId.value, peeks, 0).1;
      var e0 := Barrier.SfnError(sfnErrors, 0);
      && (e0.None? ==>
            BarrierOutcome(event, peeks, sfnErrors)
              == Some(CallbackOutcome(Barrier.Intended(exit, event.taskToken.value, event.batchId.value))))
      && (e0.Some? && !exit.Crashed? && Barrier.SfnError(sfnErrors, 1).None? ==>
            BarrierOutcome(event, peeks, sfnErrors) == Some(Raised("ExecutionError", e0.value)))
      && (BarrierOutcome(event, peeks, sfnErrors).None? <==>
            e0.Some? && (exit.Crashed? || Barrier.SfnError(sfnErrors, 1).Some?))
  {
    var t := event.taskToken.value;
    var loop := Barrier.PollFrom(event.batchId.value, peeks, 0);
    Barrier.DeliveredCallbacks(event, peeks, sfnErrors);
    var d := Barrier.Delivered(Barrier.Handle(event, peeks, sfnErrors).calls, sfnErrors, 0);
    NoCallbackResolution(loop.0, t);
    ResolutionAfter(loop.0, d[|loop.0|..], t);
    assert d == loop.0 + d[|loop.0|..];
  }

  /**
   * A drained barrier whose `send_task_success` is throttled: the success
   * never reaches Step Functions, and the `except` clause resolves the token
   * with that error. If the report is throttled as well, the token stays
   * unresolved.
   */
  lemma ThrottledSuccess(token: string, batchId: string)
    ensures BarrierOutcome(Barrier.Event(Some(token), Some(batchId)), [Barrier.Peeked([])], [Some("Throttled"), None])
         == Some(Raised("ExecutionError", "Throttled"))
    ensures BarrierOutcome(Barrier.Event(Some(token), Some(batchId)), [Barrier.Peeked([])], [Some("Throttled"), Some("Throttled")]).None?
  {
    assert Barrier.Matching([], batchId) == [];
    BarrierOutcomes(Barrier.Event(Some(token), Some(batchId)), [Barrier.Peeked([])], [Some("Throttled"), None]);
    BarrierOutcomes(Barrier.Event(Some(token), Some(batchId)), [Barrier.Peeked([])], [Some("Throttled"), Some("Throttled")]);
  }

  /**
   * A barrier that times out resolves the FilingsQueue attempt with
   * "ExecutionTimeout", which the branch retrier's "States.TaskFailed"
   * matches. What the retrier then does with a matched failure (a wait and a
   * new attempt on the same input, while retries remain) is Asl.RetryStep.
   */
  lemma TimeoutIsRetried(event: Barrier.Event, peeks: seq<Barrier.Peek>, sfnErrors: seq<Option<string>>)
    requires event.taskToken.Some? && event.batchId.Some?
    requires forall j :: 0 <= j < Barrier.MaxAttempts ==> Barrier.SawBatch(peeks, event.batchId.value, j)
    requires Barrier.SfnError(sfnErrors, 0).None?
    ensures BarrierOutcome(event, peeks, sfnErrors)
         == Some(Raised("ExecutionTimeout", Barrier.TimeoutCause(event.batchId.value)))
    ensures Matches(FilingsQueue.retry[0].errorEquals, "ExecutionTimeout")
  {
    Barrier.PollFromShape(event.batchId.value, peeks, 0, Barrier.MaxAttempts);
    BarrierOutcomes(event, peeks, sfnErrors);
    TaskFailedMatcher("ExecutionTimeout");
  }

  lemma NoCallbackResolution(calls: seq<Barrier.Call>, token: string)
    requires forall i :: 0 <= i < |calls| ==> !calls[i].IsCallback()
    ensures Resolution(calls, token).None?
  {
  }

  lemma {:induction false} ResolutionAfter(calls: seq<Barrier.Call>, later: seq<Barrier.Call>, token: string)
    requires Resolution(calls, token).None?
    ensures Resolution(calls + later, token) == Resolution(later, token)
    decreases |calls|
  {
    if |calls| == 0 {
      assert calls + later == later;
    } else {
      assert calls[0] in calls;
      assert (calls + later)[1..] == calls[1..] + later;
      ResolutionAfter(calls[1..], later, token);
    }
  }

  // ---------------------------------------------------------------------------
  // What reaches the error handler
  // ---------------------------------------------------------------------------

  /** How Step Functions sees a Lambda's exit: its return value, or its exception type and message. */
  function AsOutcome(x: Runtime.Exit): StageOutcome {
    match x
    case Return(v) => Returned(v)
    case Raise(t, msg) => Raised(t, msg)
  }

  /** Stage behaviour in which ErrorHandler runs the error-handler Lambda and every other stage is `others`. */
  function WithErrorReporter(others: Oracle, isoTime: string, compactTime: string, putFails: bool): Oracle {
    (inv: Invocation) =>
      if inv.state == "ErrorHandler" then AsOutcome(ErrorReport.Handle(inv.input, isoTime, compactTime, putFails).exit)
      else others(inv)
  }

  /**
   * As declared, a caught failure never gets reported: the Catch hands
   * ErrorHandler only {"Error", "Cause"}, the Lambda reads `Execution.Id` from
   * it, raises KeyError 'Execution' before writing, and the run fails with that.
   */
  lemma DeclaredCatchNeverReports(e: string, c: string, ctx: Context, others: Oracle,
                                  isoTime: string, compactTime: string, putFails: bool, fuel: nat)
    requires fuel >= 1
    ensures ErrorReport.Handle(ErrorOutput(e, c), isoTime, compactTime, putFails).attempted == []
    ensures RunFrom(Definition, "ErrorHandler", ErrorOutput(e, c), ctx,
                    WithErrorReporter(others, isoTime, compactTime, putFails), fuel).result
         == Failed("KeyError", "'Execution'")
  {
    var fields := map["Error" := JStr(e), "Cause" := JStr(c)];
    assert "Execution" !in fields;
    ErrorReport.NoExecutionNoReport(fields, isoTime, compactTime, putFails);
    DeclaredErrorHandler(ErrorOutput(e, c), ctx);
    var oracle := WithErrorReporter(others, isoTime, compactTime, putFails);
    assert oracle(Invocation("ErrorHandler", 0, ErrorOutput(e, c)))
        == AsOutcome(ErrorReport.Handle(ErrorOutput(e, c), isoTime, compactTime, putFails).exit);
    ErrorHandlerAbsorbing(ErrorHandler, ErrorOutput(e, c), ctx, oracle, fuel);
  }

  /**
   * `{"Execution": {"Id.$": "$$.Execution.Id", "Name.$": "$$.Execution.Name"},
   *   "Error.$": "$.Error", "Cause.$": "$.Cause"}`: the context the error
   * handler reads, added to the caught error.
   */
  const ReportParameters: Template :=
    Object([Field("Execution", Object([Field("Id", Select(ExecutionId)), Field("Name", Select(ExecutionName))])),
            Field("Error", Select(InputField("Error"))),
            Field("Cause", Select(InputField("Cause")))])

  /** ErrorHandler with the `Parameters` its Lambda needs. */
  const ReportingErrorHandler: State := Task(Lambda("error-handler"), Some(ReportParameters), End, [], [])

  /** The workflow with ReportingErrorHandler in place of the declared ErrorHandler; otherwise identical. */
  const Corrected: Machine := Workflow(ReportingErrorHandler)

  /** A three-field object template yields a three-key object, or fails with a field. */
  lemma ThreeFields(k1: string, v1: Template, k2: string, v2: Template, k3: string, v3: Template,
                    input: Json, ctx: Context, token: Option<string>)
    ensures Instantiate(Object([Field(k1, v1), Field(k2, v2), Field(k3, v3)]), input, ctx, token) ==
      match (Instantiate(v1, input, ctx, token), Instantiate(v2, input, ctx, token), Instantiate(v3, input, ctx, token))
      case (Some(x1), Some(x2), Some(x3)) => Some(JObj(map[k1 := x1, k2 := x2, k3 := x3]))
      case _ => None
  {
    var t := Object([Field(k1, v1), Field(k2, v2), Field(k3, v3)]);
    assert InstantiateFields(t, 0, input, ctx, token) == Some(map[]);
    var x1 := Instantiate(v1, input, ctx, token).GetOr(JNull);
    var x2 := Instantiate(v2, input, ctx, token).GetOr(JNull);
    assert map[][k1 := x1] == map[k1 := x1];
    assert InstantiateFields(t, 1, input, ctx, token) ==
      (if Instantiate(v1, input, ctx, token).Some? then Some(map[k1 := x1]) else None);
    assert InstantiateFields(t, 2, input, ctx, token) ==
      (if Instantiate(v1, input, ctx, token).Some? && Instantiate(v2, input, ctx, token).Some?
       then Some(map[k1 := x1, k2 := x2]) else None);
  }

  /** What the corrected ErrorHandler hands its Lambda for a caught error. */
  function ReportInput(e: string, c: string, ctx: Context): Json {
    JObj(map["Execution" := JObj(map["Id" := JStr(ctx.executionId), "Name" := JStr(ctx.executionName)]),
             "Error" := JStr(e), "Cause" := JStr(c)])
  }

  lemma ReportParametersResolve(e: string, c: string, ctx: Context)
    ensures EffectiveInput(ReportingErrorHandler, ErrorOutput(e, c), ctx, None) == Some(ReportInput(e, c, ctx))
  {
    var input := ErrorOutput(e, c);
    TwoFields("Id", Select(ExecutionId), "Name", Select(ExecutionName), input, ctx, None);
    ThreeFields("Execution", Object([Field("Id", Select(ExecutionId)), Field("Name", Select(ExecutionName))]),
                "Error", Select(InputField("Error")), "Cause", Select(InputField("Cause")), input, ctx, None);
  }

  /**
   * With the corrected definition a caught failure is reported: ErrorHandler's
   * Lambda receives the execution id and name with the caught error and cause,
   * writes one report carrying them, and the run ends normally.
   */
  lemma CorrectedCatchReports(e: string, c: string, ctx: Context, others: Oracle,
                              isoTime: string, compactTime: string, putFails: bool, fuel: nat)
    requires fuel >= 1
    ensures Sink(ReportingErrorHandler)
    ensures var inv := ErrorReport.Handle(ReportInput(e, c, ctx), isoTime, compactTime, putFails);
      && |inv.attempted| == 1
      && inv.attempted[0].key == ErrorReport.ReportKey(compactTime)
      && inv.attempted[0].body["execution_arn"] == JStr(ctx.executionId)
      && inv.attempted[0].body["state_name"] == JStr(ctx.executionName)
      && inv.attempted[0].body["error"] == JStr(e)
      && inv.attempted[0].body["cause"] == JStr(c)
    ensures RunFrom(Corrected, "ErrorHandler", ErrorOutput(e, c), ctx,
                    WithErrorReporter(others, isoTime, compactTime, putFails), fuel)
         == Run([Invoked("ErrorHandler", 0, ReportInput(e, c, ctx))], Succeeded(JNull))
  {
    ReportParametersResolve(e, c, ctx);
    ErrorReport.HandleReports(ReportInput(e, c, ctx), isoTime, compactTime, putFails);
    var oracle := WithErrorReporter(others, isoTime, compactTime, putFails);
    assert oracle(Invocation("ErrorHandler", 0, ReportInput(e, c, ctx)))
        == AsOutcome(ErrorReport.Handle(ReportInput(e, c, ctx), isoTime, compactTime, putFails).exit);
    ErrorHandlerAbsorbing(ReportingErrorHandler, ErrorOutput(e, c), ctx, oracle, fuel);
  }

  /** The correction keeps every structural property: well formed, same main line, every run settles. */
  lemma CorrectedKeepsShape(input: Json, ctx: Context, oracle: Oracle)
    ensures WellFormed(Corrected)
    ensures FollowNext(Corrected, Corrected.startAt, 5) == MainLine
    ensures Settled(RunMachine(Corrected, input, ctx, oracle, Fuel), true)
  {
    WorkflowWellFormed(ReportingErrorHandler);
    MainLineOrder(ReportingErrorHandler, 5);
    EveryRunSettles(ReportingErrorHandler, input, ctx, oracle);
  }
}
