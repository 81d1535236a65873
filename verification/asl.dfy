/**
 * A small interpreter for the part of the Amazon States Language the pipeline's
 * state machine uses: Task states (plain Lambda invocation and the
 * `lambda:invoke.waitForTaskToken` callback pattern), Parallel states, the
 * `Next`/`End` transitions, `Parameters` templates, and the Retry and Catch
 * tables ("Retrying after error" and "Fallback states" of the language
 * definition, with the error-name matching Step Functions applies).
 *
 * What a stage does is not interpreted: every invocation is answered by an
 * oracle that sees the state name, the attempt number and the effective
 * input. For a callback task the oracle's answer is the token's resolution.
 */
module Asl {
  import opened Wrappers
  import opened Json
  import Text

  // ---------------------------------------------------------------------------
  // Error names
  // ---------------------------------------------------------------------------

  const StatesAll: string := "States.ALL"
  const StatesTaskFailed: string := "States.TaskFailed"
  const StatesTimeout: string := "States.Timeout"
  const StatesRuntime: string := "States.Runtime"

  /**
   * Does an `ErrorEquals` list match the error? "States.ALL" matches every
   * error and "States.TaskFailed" every error but "States.Timeout"; any other
   * entry matches its own name. "States.Runtime" is never matched: it always
   * fails the execution.
   */
  predicate Matches(errorEquals: seq<string>, error: string) {
    && error != StatesRuntime
    && (exists i :: 0 <= i < |errorEquals| &&
         (errorEquals[i] == StatesAll || errorEquals[i] == error ||
          (errorEquals[i] == StatesTaskFailed && error != StatesTimeout)))
  }

  // ---------------------------------------------------------------------------
  // Definitions
  // ---------------------------------------------------------------------------

  /** A `Retry` entry. `BackoffRate` is a decimal number in the language; here an exact rational. */
  datatype Retrier = Retrier(errorEquals: seq<string>, intervalSeconds: nat, maxAttempts: nat, backoffRate: real)

  /** A `Catch` entry: matching errors transition to `next` with {"Error", "Cause"} as input. */
  datatype Catcher = Catcher(errorEquals: seq<string>, next: string)

  datatype Transition = Next(target: string) | End

  /** A reference path in a `Parameters` template: "$.field", "$$.Task.Token", "$$.Execution.Id", "$$.Execution.Name". */
  datatype Path = InputField(field: string) | TaskToken | ExecutionId | ExecutionName

  /**
   * A `Parameters` template: a literal value, a path (a key written "name.$"),
   * or an object of named sub-templates.
   */
  datatype Template = Literal(value: Json) | Select(path: Path) | Object(fields: seq<Field>)
  datatype Field = Field(key: string, value: Template)

  /** What a Task state runs. */
  datatype Resource = Lambda(functionName: string) | LambdaWaitForTaskToken

  datatype State =
    | Task(resource: Resource, parameters: Option<Template>, transition: Transition,
           retry: seq<Retrier>, catch: seq<Catcher>)
    | Parallel(branches: seq<Machine>, transition: Transition,
               retry: seq<Retrier>, catch: seq<Catcher>)

  datatype NamedState = NamedState(name: string, state: State)

  /** A state machine (or a Parallel branch): `StartAt` and `States`. */
  datatype Machine = Machine(startAt: string, states: seq<NamedState>)

  /** The state called `name`, if any. */
  function Find(states: seq<NamedState>, name: string): (r: Option<State>)
    ensures r.Some? <==> exists i :: 0 <= i < |states| && states[i].name == name
    ensures r.Some? ==> exists i :: 0 <= i < |states| && states[i].name == name && states[i].state == r.value
  {
    if |states| == 0 then None
    else if states[0].name == name then Some(states[0].state)
    else
      var r := Find(states[1..], name);
      assert forall i :: 1 <= i < |states| ==> states[i] == states[1..][i - 1];
      assert r.Some? ==> exists i :: 0 <= i < |states[1..]| && states[1..][i].name == name;
      r
  }

  predicate Defines(m: Machine, name: string) {
    exists i :: 0 <= i < |m.states| && m.states[i].name == name
  }

  /** "States.ALL" may only appear alone, in the last entry of a table. */
  predicate AllIsLast(tables: seq<seq<string>>) {
    forall i :: 0 <= i < |tables| && StatesAll in tables[i] ==>
      tables[i] == [StatesAll] && i == |tables| - 1
  }

  /** The `ErrorEquals` lists of a `Retry` field, in declared order. */
  function RetryMatchers(rs: seq<Retrier>): (r: seq<seq<string>>)
    ensures |r| == |rs| && forall i :: 0 <= i < |rs| ==> r[i] == rs[i].errorEquals
  {
    if |rs| == 0 then [] else [rs[0].errorEquals] + RetryMatchers(rs[1..])
  }

  /**
   * The `ErrorEquals` lists of a `Catch` field. The same projection as
   * RetryMatchers, over catchers rather than retriers; the two record types
   * share no supertype here, so it is written out for each.
   */
  function CatchMatchers(cs: seq<Catcher>): (r: seq<seq<string>>)
    ensures |r| == |cs| && forall i :: 0 <= i < |cs| ==> r[i] == cs[i].errorEquals
  {
    if |cs| == 0 then [] else [cs[0].errorEquals] + CatchMatchers(cs[1..])
  }

  /**
   * The structural rules of the language that the interpreter relies on: state
   * names are unique, `StartAt`, every `Next` and every catcher's `Next` name a
   * state of the same machine, "States.ALL" is alone and last, intervals are
   * positive, backoff rates at least 1, and every branch is itself well formed.
   */
  predicate WellFormed(m: Machine)
    decreases m, 1
  {
    && Defines(m, m.startAt)
    && (forall i, j :: 0 <= i < j < |m.states| ==> m.states[i].name != m.states[j].name)
    && (forall i :: 0 <= i < |m.states| ==> StateWellFormed(m, m.states[i]))
  }

  predicate StateWellFormed(m: Machine, ns: NamedState)
    requires ns in m.states
    decreases m, 0
  {
    var s := ns.state;
    && (s.transition.Next? ==> Defines(m, s.transition.target))
    && (forall c :: c in s.catch ==> Defines(m, c.next))
    && AllIsLast(RetryMatchers(s.retry))
    && AllIsLast(CatchMatchers(s.catch))
    && (forall r :: r in s.retry ==> r.intervalSeconds >= 1 && r.backoffRate >= 1.0)
    && (s.Parallel? ==> |s.branches| >= 1 && forall b :: b in s.branches ==> WellFormed(b))
  }

  // ---------------------------------------------------------------------------
  // Retry timing
  // ---------------------------------------------------------------------------

  function Pow(b: real, n: nat): real {
    if n == 0 then 1.0 else b * Pow(b, n - 1)
  }

  /** The wait before retry number `n` (n >= 1): IntervalSeconds × BackoffRate^(n−1). */
  function RetryDelay(r: Retrier, n: nat): real
    requires n >= 1
  {
    (r.intervalSeconds as real) * Pow(r.backoffRate, n - 1)
  }

  /** The first wait is the interval and each later one is the previous times the backoff rate. */
  lemma RetryDelayGeometric(r: Retrier, n: nat)
    requires n >= 1
    ensures RetryDelay(r, 1) == r.intervalSeconds as real
    ensures RetryDelay(r, n + 1) == RetryDelay(r, n) * r.backoffRate
  {
  }

  /** With a backoff rate of at least 1 the waits never shrink. */
  lemma {:induction false} RetryDelayMonotone(r: Retrier, n: nat)
    requires n >= 1 && r.backoffRate >= 1.0
    ensures RetryDelay(r, n) <= RetryDelay(r, n + 1)
  {
    PowAtLeastOne(r.backoffRate, n - 1);
  }

  lemma {:induction false} PowAtLeastOne(b: real, n: nat)
    requires b >= 1.0
    ensures Pow(b, n) >= 1.0
  {
    if n > 0 {
      PowAtLeastOne(b, n - 1);
    }
  }

  // ---------------------------------------------------------------------------
  // Running a machine
  // ---------------------------------------------------------------------------

  /** What the execution knows about itself (the `$$` context object). */
  datatype Context = Context(executionId: string, executionName: string)

  /** The opaque task token minted for one attempt of a callback task. */
  function MintToken(ctx: Context, state: string, attempt: nat): string {
    ctx.executionId + "#" + state + "#" + Text.NatToString(attempt)
  }

  /** One invocation of a stage, as the oracle sees it. */
  datatype Invocation = Invocation(state: string, attempt: nat, input: Json)

  /** What a stage invocation (or a callback token's resolution) comes back with. */
  datatype StageOutcome = Returned(output: Json) | Raised(error: string, cause: string)

  type Oracle = Invocation -> StageOutcome

  /** The error output a catcher passes on: {"Error": ..., "Cause": ...}. */
  function ErrorOutput(error: string, cause: string): Json {
    JObj(map["Error" := JStr(error), "Cause" := JStr(cause)])
  }

  datatype Event =
    | Invoked(state: string, attempt: nat, input: Json)
    | Retrying(state: string, retry: nat, delay: real)
    | Caught(state: string, error: string, next: string)

  datatype Result = Succeeded(output: Json) | Failed(error: string, cause: string) | OutOfFuel

  /** A run: what happened, in order, and how it ended. */
  datatype Run = Run(trace: seq<Event>, result: Result)

  function Prepend(t: seq<Event>, r: Run): Run {
    Run(t + r.trace, r.result)
  }

  /** Resolve a path against the state input and the context; `None` if it does not resolve. */
  function Resolve(p: Path, input: Json, ctx: Context, token: Option<string>): Option<Json> {
    match p
    case InputField(f) => if input.JObj? && f in input.fields then Some(input.fields[f]) else None
    case TaskToken => if token.Some? then Some(JStr(token.value)) else None
    case ExecutionId => Some(JStr(ctx.executionId))
    case ExecutionName => Some(JStr(ctx.executionName))
  }

  /** Instantiate a template; `None` when some path does not resolve. */
  function Instantiate(t: Template, input: Json, ctx: Context, token: Option<string>): Option<Json>
    decreases t, 1, 0
  {
    match t
    case Literal(v) => Some(v)
    case Select(p) => Resolve(p, input, ctx, token)
    case Object(fields) =>
      var m :- InstantiateFields(t, |fields|, input, ctx, token);
      Some(JObj(m))
  }

  /** The first `n` fields of an object template; a later key overrides an earlier one. */
  function InstantiateFields(t: Template, n: nat, input: Json, ctx: Context, token: Option<string>)
    : Option<map<string, Json>>
    requires t.Object? && n <= |t.fields|
    decreases t, 0, n
  {
    if n == 0 then Some(map[])
    else
      var f := t.fields[n - 1];
      var init :- InstantiateFields(t, n - 1, input, ctx, token);
      var v :- Instantiate(f.value, input, ctx, token);
      Some(init[f.key := v])
  }

  /** The input a Task hands to its resource: the state input, or its `Parameters` instantiated. */
  function EffectiveInput(s: State, input: Json, ctx: Context, token: Option<string>): Option<Json>
    requires s.Task?
  {
    match s.parameters
    case None => Some(input)
    case Some(t) => Instantiate(t, input, ctx, token)
  }

  /** One attempt of a Task state. A template that does not resolve is a States.Runtime error. */
  function TaskAttempt(name: string, s: State, input: Json, attempt: nat, ctx: Context, oracle: Oracle): Run
    requires s.Task?
  {
    var token := if s.resource.LambdaWaitForTaskToken? then Some(MintToken(ctx, name, attempt)) else None;
    match EffectiveInput(s, input, ctx, token)
    case None => Run([], Failed(StatesRuntime, "The JSONPath in Parameters of state '" + name + "' could not be found in the input"))
    case Some(eff) =>
      match oracle(Invocation(name, attempt, eff))
      case Returned(out) => Run([Invoked(name, attempt, eff)], Succeeded(out))
      case Raised(e, c) => Run([Invoked(name, attempt, eff)], Failed(e, c))
  }

  /** The index of the first retrier (or catcher) whose `ErrorEquals` matches. */
  function FirstMatch(tables: seq<seq<string>>, error: string): (r: Option<nat>)
    ensures r.Some? ==> r.value < |tables| && Matches(tables[r.value], error)
    ensures r.Some? ==> forall j :: 0 <= j < r.value ==> !Matches(tables[j], error)
    ensures r.None? ==> forall j :: 0 <= j < |tables| ==> !Matches(tables[j], error)
  {
    if |tables| == 0 then None
    else if Matches(tables[0], error) then Some(0)
    else match FirstMatch(tables[1..], error)
      case None => None
      case Some(k) => Some(k + 1)
  }

  /** How many retries retrier `i` has used so far. */
  function Used(counts: map<nat, nat>, i: nat): nat {
    if i in counts then counts[i] else 0
  }

  /** Run the machine from the state named `at`. Every state entered costs one unit of fuel. */
  function RunFrom(m: Machine, at: string, input: Json, ctx: Context, oracle: Oracle, fuel: nat): Run
    decreases fuel, 0, 0
  {
    if fuel == 0 then Run([], OutOfFuel)
    else match Find(m.states, at)
      case None => Run([], Failed(StatesRuntime, "No state named '" + at + "'"))
      case Some(s) => Execute(m, at, s, input, map[], 0, ctx, oracle, fuel - 1)
  }

  /** Run a whole machine from its `StartAt`. */
  function RunMachine(m: Machine, input: Json, ctx: Context, oracle: Oracle, fuel: nat): Run {
    RunFrom(m, m.startAt, input, ctx, oracle, fuel)
  }

  /** The outcome of running the branches of a Parallel state. */
  datatype Join = AllSucceeded(outputs: seq<Json>) | BranchFailed(error: string, cause: string) | BranchOutOfFuel
  datatype BranchesRun = BranchesRun(trace: seq<Event>, join: Join)

  /**
   * Branches `i..` of a Parallel state, all on the same input. Their outputs
   * are collected in declared order; the first branch (in declared order) that
   * fails makes the whole state fail with its error.
   */
  function Branches(bs: seq<Machine>, i: nat, input: Json, ctx: Context, oracle: Oracle, fuel: nat): BranchesRun
    requires i <= |bs|
    decreases fuel, 1, |bs| - i
  {
    if i == |bs| then BranchesRun([], AllSucceeded([]))
    else
      var first := RunFrom(bs[i], bs[i].startAt, input, ctx, oracle, fuel);
      match first.result
      case OutOfFuel => BranchesRun(first.trace, BranchOutOfFuel)
      case Failed(e, c) => BranchesRun(first.trace, BranchFailed(e, c))
      case Succeeded(out) =>
        var rest := Branches(bs, i + 1, input, ctx, oracle, fuel);
        match rest.join
        case AllSucceeded(outs) => BranchesRun(first.trace + rest.trace, AllSucceeded([out] + outs))
        case _ => BranchesRun(first.trace + rest.trace, rest.join)
  }

  /** One attempt of any state. */
  function StateAttempt(name: string, s: State, input: Json, attempt: nat, ctx: Context, oracle: Oracle, fuel: nat): Run
    decreases fuel, 2, 0
  {
    match s
    case Task(_, _, _, _, _) => TaskAttempt(name, s, input, attempt, ctx, oracle)
    case Parallel(bs, _, _, _) =>
      var b := Branches(bs, 0, input, ctx, oracle, fuel);
      match b.join
      case AllSucceeded(outs) => Run(b.trace, Succeeded(JArr(outs)))
      case BranchFailed(e, c) => Run(b.trace, Failed(e, c))
      case BranchOutOfFuel => Run(b.trace, OutOfFuel)
  }

  /**
   * Execute state `name` (whose definition is `s`) on `input`, attempt
   * `attempt`, with retrier `i` having used `Used(counts, i)` retries.
   * Success follows `Next` or ends; an error is retried by the first matching
   * retrier while it has attempts left, otherwise handed to the first matching
   * catcher, otherwise it fails the machine.
   */
  function Execute(m: Machine, name: string, s: State, input: Json, counts: map<nat, nat>, attempt: nat,
                   ctx: Context, oracle: Oracle, fuel: nat): Run
    decreases fuel, 3, 0
  {
    var a := StateAttempt(name, s, input, attempt, ctx, oracle, fuel);
    match a.result
    case OutOfFuel => a
    case Succeeded(out) =>
      (match s.transition
       case End => a
       case Next(t) => Prepend(a.trace, RunFrom(m, t, out, ctx, oracle, fuel)))
    case Failed(e, c) =>
      var retrier := FirstMatch(RetryMatchers(s.retry), e);
      if retrier.Some? && Used(counts, retrier.value) < s.retry[retrier.value].maxAttempts then
        if fuel == 0 then Run(a.trace, OutOfFuel)
        else
          var n := Used(counts, retrier.value) + 1;
          Prepend(a.trace + [Retrying(name, n, RetryDelay(s.retry[retrier.value], n))],
                  Execute(m, name, s, input, counts[retrier.value := n], attempt + 1, ctx, oracle, fuel - 1))
      else
        match FirstMatch(CatchMatchers(s.catch), e)
        case Some(k) =>
          Prepend(a.trace + [Caught(name, e, s.catch[k].next)],
                  RunFrom(m, s.catch[k].next, ErrorOutput(e, c), ctx, oracle, fuel))
        case None => Run(a.trace, Failed(e, c))
  }

  // ---------------------------------------------------------------------------
  // Properties of the interpreter
  // ---------------------------------------------------------------------------

  /** "States.TaskFailed" alone matches every error except "States.Timeout" and "States.Runtime". */
  lemma TaskFailedMatcher(error: string)
    ensures Matches([StatesTaskFailed], error) <==> error != StatesTimeout && error != StatesRuntime
  {
    if error != StatesTimeout && error != StatesRuntime {
      assert [StatesTaskFailed][0] == StatesTaskFailed;
    }
  }

  /** "States.ALL" alone matches every error except "States.Runtime". */
  lemma AllMatcher(error: string)
    ensures Matches([StatesAll], error) <==> error != StatesRuntime
  {
    if error != StatesRuntime {
      assert [StatesAll][0] == StatesAll;
    }
  }

  /** The delays of the `Retrying` events of a trace, in order. */
  function Delays(trace: seq<Event>): seq<real> {
    if |trace| == 0 then []
    else (if trace[0].Retrying? then [trace[0].delay] else []) + Delays(trace[1..])
  }

  lemma {:induction false} DelaysAppend(a: seq<Event>, b: seq<Event>)
    ensures Delays(a + b) == Delays(a) + Delays(b)
    decreases |a|
  {
    if |a| == 0 {
      assert a + b == b;
    } else {
      var head := if a[0].Retrying? then [a[0].delay] else [];
      assert (a + b)[0] == a[0];
      assert (a + b)[1..] == a[1..] + b;
      assert Delays(a + b) == head + Delays(a[1..] + b);
      DelaysAppend(a[1..], b);
      assert Delays(a) == head + Delays(a[1..]);
    }
  }

  /** The schedule of a retrier's first `k` retries: [delay 1, …, delay k]. */
  function Schedule(r: Retrier, from: nat, k: nat): (d: seq<real>)
    requires from >= 1
    ensures |d| == k
    decreases k
  {
    if k == 0 then [] else [RetryDelay(r, from)] + Schedule(r, from + 1, k - 1)
  }

  /** The outcome of attempt `j` of a Task state, as the oracle gives it (or a Runtime failure). */
  function AttemptResult(name: string, s: State, input: Json, j: nat, ctx: Context, oracle: Oracle): Result
    requires s.Task?
  {
    TaskAttempt(name, s, input, j, ctx, oracle).result
  }

  /** A succeeding attempt of a state with `End` finishes the run with that attempt. */
  lemma SucceedStep(m: Machine, name: string, s: State, input: Json, counts: map<nat, nat>, attempt: nat,
                    ctx: Context, oracle: Oracle, fuel: nat)
    requires s.Task? && s.transition == End
    requires AttemptResult(name, s, input, attempt, ctx, oracle).Succeeded?
    ensures Execute(m, name, s, input, counts, attempt, ctx, oracle, fuel)
         == TaskAttempt(name, s, input, attempt, ctx, oracle)
  {
  }

  /**
   * A failing attempt of a Task whose single retrier matches the error and
   * has `used < MaxAttempts` is followed by a wait of RetryDelay(used + 1) and
   * attempt `attempt + 1` on the same input.
   */
  lemma RetryStep(m: Machine, name: string, s: State, input: Json, used: nat, attempt: nat,
                  ctx: Context, oracle: Oracle, fuel: nat)
    requires s.Task? && |s.retry| == 1 && fuel >= 1
    requires used < s.retry[0].maxAttempts
    requires AttemptResult(name, s, input, attempt, ctx, oracle).Failed?
    requires Matches(s.retry[0].errorEquals, AttemptResult(name, s, input, attempt, ctx, oracle).error)
    ensures Execute(m, name, s, input, map[0 := used], attempt, ctx, oracle, fuel)
         == Prepend(TaskAttempt(name, s, input, attempt, ctx, oracle).trace
                      + [Retrying(name, used + 1, RetryDelay(s.retry[0], used + 1))],
                    Execute(m, name, s, input, map[0 := used + 1], attempt + 1, ctx, oracle, fuel - 1))
  {
    assert RetryMatchers(s.retry) == [s.retry[0].errorEquals];
    assert map[0 := used][0 := used + 1] == map[0 := used + 1];
  }

  /**
   * Retrying after error: a Task with a single retrier whose attempts
   * `from..from+k-1` fail with errors the retrier matches, and attempt
   * `from+k` succeeds, is retried exactly `k` times with the waits
   * RetryDelay(from+1) … RetryDelay(from+k), the input unchanged, as long as
   * `from + k <= MaxAttempts`; it then ends with the stage's output.
   */
  lemma RetryThenSucceed(m: Machine, name: string, s: State, input: Json, ctx: Context,
                         oracle: Oracle, fuel: nat, from: nat, k: nat)
    requires s.Task? && |s.retry| == 1 && s.transition == End
    requires from + k <= s.retry[0].maxAttempts
    requires fuel >= k
    requires forall j :: from <= j < from + k ==>
      AttemptResult(name, s, input, j, ctx, oracle).Failed? &&
      Matches(s.retry[0].errorEquals, AttemptResult(name, s, input, j, ctx, oracle).error)
    requires AttemptResult(name, s, input, from + k, ctx, oracle).Succeeded?
    ensures var run := Execute(m, name, s, input, map[0 := from], from, ctx, oracle, fuel);
      && run.result == AttemptResult(name, s, input, from + k, ctx, oracle)
      && Delays(run.trace) == Schedule(s.retry[0], from + 1, k)
  {
    FailsFromAll(name, s, input, ctx, oracle, from, k);
    RetriedResult(m, name, s, input, ctx, oracle, fuel, from, k);
    RetriedDelays(m, name, s, input, ctx, oracle, fuel, from, k);
  }

  /** Attempts `from..from+k-1` fail with errors the single retrier matches. */
  predicate FailsFrom(name: string, s: State, input: Json, ctx: Context, oracle: Oracle, from: nat, k: nat)
    requires s.Task? && |s.retry| == 1
    decreases k
  {
    k == 0 ||
      (&& AttemptResult(name, s, input, from, ctx, oracle).Failed?
       && Matches(s.retry[0].errorEquals, AttemptResult(name, s, input, from, ctx, oracle).error)
       && FailsFrom(name, s, input, ctx, oracle, from + 1, k - 1))
  }

  lemma {:induction false} FailsFromAll(name: string, s: State, input: Json, ctx: Context, oracle: Oracle, from: nat, k: nat)
    requires s.Task? && |s.retry| == 1
    requires forall j :: from <= j < from + k ==>
      AttemptResult(name, s, input, j, ctx, oracle).Failed? &&
      Matches(s.retry[0].errorEquals, AttemptResult(name, s, input, j, ctx, oracle).error)
    ensures FailsFrom(name, s, input, ctx, oracle, from, k)
    decreases k
  {
    if k > 0 {
      FailsFromAll(name, s, input, ctx, oracle, from + 1, k - 1);
    }
  }

  /** The result half of RetryThenSucceed. */
  lemma {:induction false} RetriedResult(m: Machine, name: string, s: State, input: Json, ctx: Context,
                                         oracle: Oracle, fuel: nat, from: nat, k: nat)
    requires s.Task? && |s.retry| == 1 && s.transition == End
    requires from + k <= s.retry[0].maxAttempts && fuel >= k
    requires FailsFrom(name, s, input, ctx, oracle, from, k)
    requires AttemptResult(name, s, input, from + k, ctx, oracle).Succeeded?
    ensures Execute(m, name, s, input, map[0 := from], from, ctx, oracle, fuel).result
         == AttemptResult(name, s, input, from + k, ctx, oracle)
    decreases k
  {
    if k == 0 {
      SucceedStep(m, name, s, input, map[0 := from], from, ctx, oracle, fuel);
    } else {
      assert AttemptResult(name, s, input, from, ctx, oracle).Failed?;
      RetryStep(m, name, s, input, from, from, ctx, oracle, fuel);
      RetriedResult(m, name, s, input, ctx, oracle, fuel - 1, from + 1, k - 1);
      assert from + 1 + (k - 1) == from + k;
    }
  }

  /** The delays half of RetryThenSucceed. */
  lemma {:induction false} RetriedDelays(m: Machine, name: string, s: State, input: Json, ctx: Context,
                                         oracle: Oracle, fuel: nat, from: nat, k: nat)
    requires s.Task? && |s.retry| == 1 && s.transition == End
    requires from + k <= s.retry[0].maxAttempts && fuel >= k
    requires FailsFrom(name, s, input, ctx, oracle, from, k)
    requires AttemptResult(name, s, input, from + k, ctx, oracle).Succeeded?
    ensures RetriedWaits(m, name, s, input, ctx, oracle, fuel, from, k)
    decreases k
  {
    if k == 0 {
      SucceedNoDelays(m, name, s, input, ctx, oracle, fuel, from);
    } else {
      RetriedDelays(m, name, s, input, ctx, oracle, fuel - 1, from + 1, k - 1);
      RetriedDelaysStep(m, name, s, input, ctx, oracle, fuel, from, k);
    }
  }

  /** The waits of a run from attempt `from` are the retry delays from+1 … from+k. */
  predicate RetriedWaits(m: Machine, name: string, s: State, input: Json, ctx: Context,
                         oracle: Oracle, fuel: nat, from: nat, k: nat)
    requires s.Task? && |s.retry| == 1
  {
    Delays(Execute(m, name, s, input, map[0 := from], from, ctx, oracle, fuel).trace) == Schedule(s.retry[0], from + 1, k)
  }

  /** A succeeding attempt of a state that ends waits for nothing. */
  lemma SucceedNoDelays(m: Machine, name: string, s: State, input: Json, ctx: Context, oracle: Oracle, fuel: nat, from: nat)
    requires s.Task? && s.transition == End
    requires AttemptResult(name, s, input, from, ctx, oracle).Succeeded?
    ensures Delays(Execute(m, name, s, input, map[0 := from], from, ctx, oracle, fuel).trace) == []
  {
    SucceedStep(m, name, s, input, map[0 := from], from, ctx, oracle, fuel);
    AttemptNoDelays(name, s, input, from, ctx, oracle);
  }

  /** One matched failure in front of `k - 1` retries whose delays are known. */
  lemma RetriedDelaysStep(m: Machine, name: string, s: State, input: Json, ctx: Context,
                          oracle: Oracle, fuel: nat, from: nat, k: nat)
    requires s.Task? && |s.retry| == 1 && fuel >= 1 && k >= 1
    requires from < s.retry[0].maxAttempts
    requires AttemptResult(name, s, input, from, ctx, oracle).Failed?
    requires Matches(s.retry[0].errorEquals, AttemptResult(name, s, input, from, ctx, oracle).error)
    requires RetriedWaits(m, name, s, input, ctx, oracle, fuel - 1, from + 1, k - 1)
    ensures RetriedWaits(m, name, s, input, ctx, oracle, fuel, from, k)
  {
    var run := Execute(m, name, s, input, map[0 := from], from, ctx, oracle, fuel);
    var a := TaskAttempt(name, s, input, from, ctx, oracle);
    AttemptNoDelays(name, s, input, from, ctx, oracle);
    var ev := Retrying(name, from + 1, RetryDelay(s.retry[0], from + 1));
    RetryStep(m, name, s, input, from, from, ctx, oracle, fuel);
    var rest := Execute(m, name, s, input, map[0 := from + 1], from + 1, ctx, oracle, fuel - 1);
    assert run.trace == a.trace + [ev] + rest.trace;
    RetryPrefix(a.trace, ev, rest.trace, run.trace, s.retry[0], from, k);
  }

  /** Retry `from + 1` in front of the later retries extends their schedule by its delay. */
  lemma RetryPrefix(t: seq<Event>, ev: Event, rest: seq<Event>, trace: seq<Event>, r: Retrier, from: nat, k: nat)
    requires k >= 1
    requires Delays(t) == []
    requires ev.Retrying? && ev.delay == RetryDelay(r, from + 1)
    requires trace == t + [ev] + rest
    requires Delays(rest) == Schedule(r, from + 2, k - 1)
    ensures Delays(trace) == Schedule(r, from + 1, k)
  {
    DelaysOfRetry(t, ev, rest);
  }

  /** A retry after invocations contributes exactly its own delay. */
  lemma DelaysOfRetry(t: seq<Event>, ev: Event, rest: seq<Event>)
    requires Delays(t) == []
    requires ev.Retrying?
    ensures Delays(t + [ev] + rest) == [ev.delay] + Delays(rest)
  {
    DelaysAppend(t + [ev], rest);
    DelaysAppend(t, [ev]);
    assert [ev][1..] == [];
  }

  /** An attempt of a Task contributes no delay: its trace is at most its invocation. */
  lemma AttemptNoDelays(name: string, s: State, input: Json, attempt: nat, ctx: Context, oracle: Oracle)
    requires s.Task?
    ensures Delays(TaskAttempt(name, s, input, attempt, ctx, oracle).trace) == []
  {
    var t := TaskAttempt(name, s, input, attempt, ctx, oracle).trace;
    if |t| > 0 {
      assert t[1..] == [];
    }
  }

  /**
   * Once a Task's single retrier is used up, the next matching failure is not
   * retried: it goes to the first matching catcher with {"Error","Cause"} as
   * input, or fails the machine when no catcher matches.
   */
  lemma RetriesExhausted(m: Machine, name: string, s: State, input: Json, ctx: Context,
                         oracle: Oracle, fuel: nat, attempt: nat)
    requires s.Task? && |s.retry| == 1
    requires AttemptResult(name, s, input, attempt, ctx, oracle).Failed?
    ensures var res := AttemptResult(name, s, input, attempt, ctx, oracle);
      var run := Execute(m, name, s, input, map[0 := s.retry[0].maxAttempts], attempt, ctx, oracle, fuel);
      match FirstMatch(CatchMatchers(s.catch), res.error)
      case Some(k) => run.result == RunFrom(m, s.catch[k].next, ErrorOutput(res.error, res.cause), ctx, oracle, fuel).result
      case None => run.result == res
  {
    assert RetryMatchers(s.retry) == [s.retry[0].errorEquals];
  }

  /**
   * Parallel join: when every branch succeeds, the state's result is the list of
   * the branch outputs in declared order, each branch having run on the same input.
   */
  lemma {:induction false} BranchesJoinInOrder(bs: seq<Machine>, i: nat, input: Json, ctx: Context, oracle: Oracle, fuel: nat)
    requires i <= |bs|
    requires forall j :: i <= j < |bs| ==> RunFrom(bs[j], bs[j].startAt, input, ctx, oracle, fuel).result.Succeeded?
    ensures var b := Branches(bs, i, input, ctx, oracle, fuel);
      && b.join.AllSucceeded?
      && |b.join.outputs| == |bs| - i
      && forall j :: i <= j < |bs| ==>
           b.join.outputs[j - i] == RunFrom(bs[j], bs[j].startAt, input, ctx, oracle, fuel).result.output
    decreases |bs| - i
  {
    if i < |bs| {
      BranchesJoinInOrder(bs, i + 1, input, ctx, oracle, fuel);
      var first := RunFrom(bs[i], bs[i].startAt, input, ctx, oracle, fuel);
      var rest := Branches(bs, i + 1, input, ctx, oracle, fuel);
      BranchesSucceedStep(bs, i, input, ctx, oracle, fuel);
      var outs := [first.result.output] + rest.join.outputs;
      forall j | i < j < |bs|
        ensures outs[j - i] == RunFrom(bs[j], bs[j].startAt, input, ctx, oracle, fuel).result.output
      {
        assert outs[j - i] == rest.join.outputs[j - (i + 1)];
      }
    }
  }

  /** A succeeding branch puts its output in front of the outputs of the branches after it. */
  lemma BranchesSucceedStep(bs: seq<Machine>, i: nat, input: Json, ctx: Context, oracle: Oracle, fuel: nat)
    requires i < |bs|
    requires RunFrom(bs[i], bs[i].startAt, input, ctx, oracle, fuel).result.Succeeded?
    requires Branches(bs, i + 1, input, ctx, oracle, fuel).join.AllSucceeded?
    ensures Branches(bs, i, input, ctx, oracle, fuel).join
         == AllSucceeded([RunFrom(bs[i], bs[i].startAt, input, ctx, oracle, fuel).result.output]
                         + Branches(bs, i + 1, input, ctx, oracle, fuel).join.outputs)
  {
  }

  /**
   * Parallel failure: when branches before `i` succeed and branch `i` fails,
   * the state fails with branch `i`'s error and cause.
   */
  lemma {:induction false} BranchFailureSurfaces(bs: seq<Machine>, from: nat, i: nat, input: Json, ctx: Context, oracle: Oracle, fuel: nat)
    requires from <= i < |bs|
    requires forall j :: from <= j < i ==> RunFrom(bs[j], bs[j].startAt, input, ctx, oracle, fuel).result.Succeeded?
    requires RunFrom(bs[i], bs[i].startAt, input, ctx, oracle, fuel).result.Failed?
    ensures var f := RunFrom(bs[i], bs[i].startAt, input, ctx, oracle, fuel).result;
      Branches(bs, from, input, ctx, oracle, fuel).join == BranchFailed(f.error, f.cause)
    decreases i - from
  {
    if from < i {
      BranchFailureSurfaces(bs, from + 1, i, input, ctx, oracle, fuel);
      BranchesPassOn(bs, from, input, ctx, oracle, fuel);
    }
  }

  /** After a succeeding branch, a failure further on is the state's outcome. */
  lemma BranchesPassOn(bs: seq<Machine>, i: nat, input: Json, ctx: Context, oracle: Oracle, fuel: nat)
    requires i < |bs|
    requires RunFrom(bs[i], bs[i].startAt, input, ctx, oracle, fuel).result.Succeeded?
    requires Branches(bs, i + 1, input, ctx, oracle, fuel).join.BranchFailed?
    ensures Branches(bs, i, input, ctx, oracle, fuel).join == Branches(bs, i + 1, input, ctx, oracle, fuel).join
  {
  }
}
