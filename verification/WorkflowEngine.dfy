// The workflow engine: steps run in definition order behind a dependency gate, each with
// retries and exponential back-off, leaving one audit record per started step and growing
// the context that later steps see.
module WorkflowEngine {
  import opened Wrappers
  import opened Templates
  import PyText
  import Sequences

  // ---------- Definitions ----------

  datatype RetryConfig = RetryConfig(maxAttempts: nat, initialDelay: real, multiplier: real, maxDelay: real)

  /** The bounds RetryConfig is validated against. */
  predicate ValidRetry(r: RetryConfig) {
    && 1 <= r.maxAttempts <= 10
    && 0.0 <= r.initialDelay <= 60.0
    && 1.0 <= r.multiplier <= 10.0
    && 0.0 <= r.maxDelay <= 300.0
  }

  datatype Step = Step(id: string, config: seq<Entry>, dependsOn: seq<string>, retry: RetryConfig)

  predicate ValidSteps(steps: seq<Step>) {
    forall i :: 0 <= i < |steps| ==> ValidRetry(steps[i].retry)
  }

  /** The validators of a workflow definition: ids are unique and dependencies exist. */
  predicate UniqueIds(steps: seq<Step>) {
    forall i, j :: 0 <= i < j < |steps| ==> steps[i].id != steps[j].id
  }

  predicate DependenciesExist(steps: seq<Step>) {
    forall i :: 0 <= i < |steps| ==>
      forall d :: d in steps[i].dependsOn ==> d in Ids(steps)
  }

  function Ids(steps: seq<Step>): set<string> {
    set i | 0 <= i < |steps| :: steps[i].id
  }

  // ---------- The executor and the context ----------

  type Output = seq<Entry>

  /** One executor call: it returns a dict, raises WorkflowStepError, or raises anything else. */
  datatype Outcome = Returned(output: Output) | StepError(message: string) | Raised(message: string)

  /** What the executor does at a step index and attempt number, given the context. */
  type Executor = (nat, nat, Context) -> Outcome

  /** The run's input and the outputs of the completed steps, by id. */
  datatype Context = Context(input: Value, outputs: seq<Entry>)

  /** context["steps"][id] = {"output": output, "status": "completed"} */
  function Extend(ctx: Context, id: string, output: Output): Context {
    ctx.(outputs := Put(ctx.outputs, id, Dict(output)))
  }

  function StepEntries(outputs: seq<Entry>): seq<Entry> {
    if outputs == [] then []
    else
      [Entry(outputs[0].key, Dict([Entry("output", outputs[0].value), Entry("status", Text("completed"))]))]
      + StepEntries(outputs[1..])
  }

  /** The nested dict that templates are resolved against. */
  function Root(ctx: Context): Value {
    Dict([Entry("input", ctx.input), Entry("steps", Dict(StepEntries(ctx.outputs)))])
  }

  // ---------- Records ----------

  datatype Status = Pending | Running | Completed | Failed

  datatype Failure =
    | DependenciesNotMet(stepId: string, missing: seq<string>)
    | StepFailed(stepId: string, message: string)
    | RetriesExhausted(stepId: string, maxAttempts: nat)

  /** An audit record; `waits` is the trace of back-off sleeps the step made. */
  datatype Record = Record(
    stepId: string, stepIndex: nat, status: Status, input: seq<Entry>, attempt: nat, maxAttempts: nat,
    output: Output, error: Option<string>, waits: seq<real>)

  // ---------- Back-off ----------

  function Min(a: real, b: real): real { if a <= b then a else b }

  /** The value of `delay` after k failed attempts. */
  function Delay(r: RetryConfig, k: nat): real {
    if k == 0 then r.initialDelay else Delay(r, k - 1) * r.multiplier
  }

  function Wait(r: RetryConfig, k: nat): real {
    Min(Delay(r, k), r.maxDelay)
  }

  function Waits(r: RetryConfig, n: nat): (ws: seq<real>)
    ensures |ws| == n
  {
    if n == 0 then [] else Waits(r, n - 1) + [Wait(r, n - 1)]
  }

  function Sum(ws: seq<real>): real {
    if ws == [] then 0.0 else Sum(ws[..|ws| - 1]) + ws[|ws| - 1]
  }

  // ---------- One step, as a function ----------

  /** The first attempt from `a` on that does not raise a retryable error, or max + 1. */
  function Decisive(exec: Executor, i: nat, ctx: Context, a: nat, max: nat): (k: nat)
    requires 1 <= a <= max + 1
    ensures a <= k <= max + 1
    ensures k <= max ==> !exec(i, k, ctx).Raised?
    ensures forall b :: a <= b < k ==> exec(i, b, ctx).Raised?
    decreases max + 1 - a
  {
    if a == max + 1 || !exec(i, a, ctx).Raised? then a else Decisive(exec, i, ctx, a + 1, max)
  }

  function StepRecord(exec: Executor, step: Step, i: nat, ctx: Context): Record
    requires ValidRetry(step.retry)
  {
    var max := step.retry.maxAttempts;
    var k := Decisive(exec, i, ctx, 1, max);
    var attempt := if k <= max then k else max;
    var base := Record(step.id, i, Failed, step.config, attempt, max, [], None, Waits(step.retry, attempt - 1));
    if k <= max && exec(i, k, ctx).StepError? then base.(error := Some(exec(i, k, ctx).message))
    else if k <= max && (k == 1 || exec(i, k, ctx).output != []) then
      base.(status := Completed, output := exec(i, k, ctx).output)
    else base.(error := Some(exec(i, k - 1, ctx).message))
  }

  function StepFailure(exec: Executor, step: Step, i: nat, ctx: Context): Failure
    requires ValidRetry(step.retry)
  {
    var max := step.retry.maxAttempts;
    var k := Decisive(exec, i, ctx, 1, max);
    if k <= max && exec(i, k, ctx).StepError? then StepFailed(step.id, exec(i, k, ctx).message)
    else RetriesExhausted(step.id, max)
  }

  lemma {:induction false} DecisiveIs(exec: Executor, i: nat, ctx: Context, a: nat, k: nat, max: nat)
    requires 1 <= a <= k <= max && !exec(i, k, ctx).Raised?
    requires forall b :: a <= b < k ==> exec(i, b, ctx).Raised?
    ensures Decisive(exec, i, ctx, a, max) == k
    decreases k - a
  {
    if a < k {
      DecisiveIs(exec, i, ctx, a + 1, k, max);
    }
  }

  lemma WaitsOfNone(r: RetryConfig)
    ensures Waits(r, 0) == [] && Delay(r, 0) == r.initialDelay
  {
  }

  lemma WaitsNext(r: RetryConfig, n: nat)
    ensures Waits(r, n + 1) == Waits(r, n) + [Min(Delay(r, n), r.maxDelay)]
    ensures Delay(r, n + 1) == Delay(r, n) * r.multiplier
  {
  }

  /** Which record a step leaves, by how its attempts end. */
  lemma RecordWhenAttemptReturns(exec: Executor, step: Step, i: nat, ctx: Context, k: nat)
    requires ValidRetry(step.retry) && 1 <= k <= step.retry.maxAttempts
    requires forall b :: 1 <= b < k ==> exec(i, b, ctx).Raised?
    requires exec(i, k, ctx).Returned?
    ensures StepRecord(exec, step, i, ctx) ==
            var base := Record(step.id, i, Failed, step.config, k, step.retry.maxAttempts, [], None,
                               Waits(step.retry, k - 1));
            if k > 1 && exec(i, k, ctx).output == [] then base.(error := Some(exec(i, k - 1, ctx).message))
            else base.(status := Completed, output := exec(i, k, ctx).output)
    ensures StepFailure(exec, step, i, ctx) == RetriesExhausted(step.id, step.retry.maxAttempts)
  {
    DecisiveIs(exec, i, ctx, 1, k, step.retry.maxAttempts);
  }

  lemma RecordWhenStepErrors(exec: Executor, step: Step, i: nat, ctx: Context, k: nat)
    requires ValidRetry(step.retry) && 1 <= k <= step.retry.maxAttempts
    requires forall b :: 1 <= b < k ==> exec(i, b, ctx).Raised?
    requires exec(i, k, ctx).StepError?
    ensures StepRecord(exec, step, i, ctx) ==
            Record(step.id, i, Failed, step.config, k, step.retry.maxAttempts, [], Some(exec(i, k, ctx).message),
                   Waits(step.retry, k - 1))
    ensures StepFailure(exec, step, i, ctx) == StepFailed(step.id, exec(i, k, ctx).message)
  {
    DecisiveIs(exec, i, ctx, 1, k, step.retry.maxAttempts);
  }

  lemma RecordWhenAllAttemptsRaise(exec: Executor, step: Step, i: nat, ctx: Context)
    requires ValidRetry(step.retry)
    requires forall b :: 1 <= b <= step.retry.maxAttempts ==> exec(i, b, ctx).Raised?
    ensures var max := step.retry.maxAttempts;
            StepRecord(exec, step, i, ctx) ==
            Record(step.id, i, Failed, step.config, max, max, [], Some(exec(i, max, ctx).message),
                   Waits(step.retry, max - 1))
    ensures StepFailure(exec, step, i, ctx) == RetriesExhausted(step.id, step.retry.maxAttempts)
  {
  }

  function Missing(deps: seq<string>, completed: set<string>): seq<string> {
    if deps == [] then []
    else if deps[0] in completed then Missing(deps[1..], completed)
    else [deps[0]] + Missing(deps[1..], completed)
  }

  // ---------- A whole run, as a function ----------

  datatype RunResult = RunResult(status: Status, records: seq<Record>, output: Output, error: Option<Failure>)

  /** context["steps"].get(steps[-1].id, {}).get("output", {}) if steps else {} */
  function FinalOutput(steps: seq<Step>, ctx: Context): Output {
    if steps == [] then []
    else
      match Find(ctx.outputs, steps[|steps| - 1].id)
      case Some(Dict(output)) => output
      case _ => []
  }

  function RunFrom(exec: Executor, steps: seq<Step>, i: nat, ctx: Context): RunResult
    requires i <= |steps| && ValidSteps(steps)
    decreases |steps| - i
  {
    if i == |steps| then RunResult(Completed, [], FinalOutput(steps, ctx), None)
    else
      var step := steps[i];
      var missing := Missing(step.dependsOn, Ids(steps[..i]));
      if missing != [] then RunResult(Failed, [], [], Some(DependenciesNotMet(step.id, missing)))
      else
        var record := StepRecord(exec, step, i, ctx);
        if record.status.Completed? then
          var rest := RunFrom(exec, steps, i + 1, Extend(ctx, step.id, record.output));
          rest.(records := [record] + rest.records)
        else RunResult(Failed, [record], [], Some(StepFailure(exec, step, i, ctx)))
  }

  function Run(exec: Executor, steps: seq<Step>, input: Value): RunResult
    requires ValidSteps(steps)
  {
    RunFrom(exec, steps, 0, Context(input, []))
  }

  // ---------- The engine as the source runs it ----------

  class StepExecution {
    var stepId: string
    var stepIndex: nat
    var status: Status
    var input: seq<Entry>
    var attemptNumber: nat
    var maxAttempts: nat
    var output: Output
    var errorMessage: Option<string>
    var waits: seq<real>

    constructor (step: Step, index: nat)
      ensures View() == Record(step.id, index, Running, step.config, 1, step.retry.maxAttempts, [], None, [])
    {
      stepId, stepIndex, status, input := step.id, index, Running, step.config;
      attemptNumber, maxAttempts := 1, step.retry.maxAttempts;
      output, errorMessage, waits := [], None, [];
    }

    function View(): Record
      reads this
    {
      Record(stepId, stepIndex, status, input, attemptNumber, maxAttempts, output, errorMessage, waits)
    }
  }

  class Execution {
    var status: Status
    var output: Output
    var errorMessage: Option<Failure>
  }

  /** The database session: the step records added to it, in order. */
  class Session {
    var trail: seq<StepExecution>
  }

  function Views(trail: seq<StepExecution>): seq<Record>
    reads trail
  {
    if trail == [] then [] else Views(trail[..|trail| - 1]) + [trail[|trail| - 1].View()]
  }

  function Prepend(records: seq<Record>, r: RunResult): RunResult {
    r.(records := records + r.records)
  }

  lemma PrependAssociates(a: seq<Record>, b: seq<Record>, r: RunResult)
    ensures Prepend([], r) == r
    ensures Prepend(a, Prepend(b, r)) == Prepend(a + b, r)
  {
  }

  lemma PrependGives(a: seq<Record>, r: RunResult)
    ensures Prepend(a, r) == RunResult(r.status, a + r.records, r.output, r.error)
    ensures r.records == [] ==> Prepend(a, r).records == a
  {
  }

  lemma ViewsOfNone()
    ensures Views([]) == []
  {
  }

  lemma ViewsOfAppend(trail: seq<StepExecution>, record: StepExecution)
    ensures Views(trail + [record]) == Views(trail) + [record.View()]
  {
    assert (trail + [record])[..|trail|] == trail;
  }

  class Engine {
    const exec: Executor

    constructor (exec: Executor)
      ensures this.exec == exec
    {
      this.exec := exec;
    }

    /** The retry loop. `calls` counts the executor calls actually made. */
    method RunAttempts(step: Step, index: nat, context: Context, record: StepExecution)
      returns (result: Result<Output, Failure>, ghost calls: nat)
      requires ValidRetry(step.retry)
      requires record.View() == Record(step.id, index, Running, step.config, 1, step.retry.maxAttempts, [], None, [])
      modifies record
      ensures record.View() == StepRecord(exec, step, index, context)
      ensures calls == record.attemptNumber
      ensures result == if record.status.Completed? then Ok(record.output)
                        else Err(StepFailure(exec, step, index, context))
    {
      hide StepRecord, StepFailure, Decisive, Waits, Delay, Min;
      WaitsOfNone(step.retry);
      calls := 0;
      var output: Output := [];
      var lastError: Option<string> := None;
      var delay := step.retry.initialDelay;
      var max := step.retry.maxAttempts;
      var attempt := 1;
      while attempt <= max
        invariant 1 <= attempt <= max + 1
        invariant record.View() == Record(step.id, index, Running, step.config, if attempt == 1 then 1 else attempt - 1,
                                          max, [], None,
                                          Waits(step.retry, if attempt <= max then attempt - 1 else max - 1))
        invariant calls == attempt - 1
        invariant attempt <= max ==> delay == Delay(step.retry, attempt - 1)
        invariant forall b :: 1 <= b < attempt ==> exec(index, b, context).Raised?
        invariant lastError == if attempt == 1 then None else Some(exec(index, attempt - 1, context).message)
      {
        record.attemptNumber := attempt;
        var outcome := exec(index, attempt, context);
        calls := calls + 1;
        if outcome.Returned? {
          output := outcome.output;
          break;
        }
        lastError := Some(outcome.message);
        if outcome.StepError? {
          RecordWhenStepErrors(exec, step, index, context, attempt);
          record.status := Failed;
          record.errorMessage := Some(outcome.message);
          return Err(StepFailed(step.id, outcome.message)), calls;
        }
        if attempt < max {
          WaitsNext(step.retry, attempt - 1);
          record.waits := record.waits + [Min(delay, step.retry.maxDelay)];
          delay := delay * step.retry.multiplier;
        }
        attempt := attempt + 1;
      }

      if attempt > max {
        RecordWhenAllAttemptsRaise(exec, step, index, context);
      } else {
        RecordWhenAttemptReturns(exec, step, index, context, attempt);
      }
      if lastError.Some? && output == [] {
        record.status := Failed;
        record.errorMessage := lastError;
        result := Err(RetriesExhausted(step.id, max));
      } else {
        record.status := Completed;
        record.output := output;
        result := Ok(output);
      }
    }

    method RunStep(step: Step, index: nat, context: Context, completedIds: set<string>, session: Session)
      returns (result: Result<Output, Failure>)
      requires ValidRetry(step.retry)
      modifies session
      ensures Missing(step.dependsOn, completedIds) != [] ==>
                session.trail == old(session.trail) &&
                result == Err(DependenciesNotMet(step.id, Missing(step.dependsOn, completedIds)))
      ensures Missing(step.dependsOn, completedIds) == [] ==>
                && |session.trail| == |old(session.trail)| + 1
                && session.trail[..|old(session.trail)|] == old(session.trail)
                && var record := session.trail[|old(session.trail)|];
                && fresh(record)
                && record.View() == StepRecord(exec, step, index, context)
                && result == if record.status.Completed? then Ok(record.output)
                             else Err(StepFailure(exec, step, index, context))
    {
      hide StepRecord, StepFailure, Missing;
      var missing := Missing(step.dependsOn, completedIds);
      if missing != [] {
        return Err(DependenciesNotMet(step.id, missing));
      }
      var record := new StepExecution(step, index);
      session.trail := session.trail + [record];
      ghost var calls;
      result, calls := RunAttempts(step, index, context, record);
    }

    method Execute(execution: Execution, steps: seq<Step>, input: Value, session: Session)
      requires ValidSteps(steps)
      modifies execution, session
      ensures old(session.trail) <= session.trail
      ensures fresh(session.trail[|old(session.trail)|..])
      ensures var run := Run(exec, steps, input);
              && execution.status == run.status
              && Views(session.trail[|old(session.trail)|..]) == run.records
              && execution.output == (if run.status.Completed? then run.output else old(execution.output))
              && execution.errorMessage == (if run.status.Failed? then run.error else old(execution.errorMessage))
    {
      hide StepRecord, StepFailure, Missing, Ids, RunFrom, FinalOutput, Views, ValidRetry, Prepend, Extend;
      execution.status := Running;
      var context := Context(input, []);
      var completedIds: set<string> := {};
      ghost var base := session.trail;
      ghost var goal := Run(exec, steps, input);
      ghost var added: seq<StepExecution> := [];
      IdsOfNone(steps);
      ViewsOfNone();
      PrependAssociates([], [], goal);
      var failure: Option<Failure> := None;
      for index := 0 to |steps|
        invariant execution.output == old(execution.output) && execution.errorMessage == old(execution.errorMessage)
        invariant completedIds == Ids(steps[..index]) && failure == None
        invariant session.trail == base + added && fresh(added)
        invariant goal == Prepend(Views(added), RunFrom(exec, steps, index, context))
      {
        var step := steps[index];
        RunFromUnfolds(exec, steps, index, context);
        PrependGives(Views(added), RunFrom(exec, steps, index, context));
        var result := RunStep(step, index, context, completedIds, session);
        if Missing(step.dependsOn, completedIds) == [] {
          ghost var record := session.trail[|session.trail| - 1];
          assert session.trail == base + (added + [record]);
          ViewsOfAppend(added, record);
          PrependAssociates(Views(added), [record.View()],
                            RunFrom(exec, steps, index + 1, Extend(context, step.id, record.output)));
          added := added + [record];
        }
        if result.Err? {
          failure := Some(result.error);
          break;
        }
        context := Extend(context, step.id, result.value);
        completedIds := completedIds + {step.id};
        IdsOfNext(steps, index);
      }
      SuffixAfter(base, added);
      if failure.Some? {
        execution.status := Failed;
        execution.errorMessage := failure;
      } else {
        RunFromEnds(exec, steps, context);
        PrependGives(Views(added), RunFrom(exec, steps, |steps|, context));
        execution.status := Completed;
        execution.output := FinalOutput(steps, context);
      }
    }
  }

  lemma RunFromUnfolds(exec: Executor, steps: seq<Step>, i: nat, ctx: Context)
    requires i < |steps| && ValidSteps(steps)
    ensures var step := steps[i];
            var missing := Missing(step.dependsOn, Ids(steps[..i]));
            var record := StepRecord(exec, step, i, ctx);
            RunFrom(exec, steps, i, ctx) ==
            if missing != [] then RunResult(Failed, [], [], Some(DependenciesNotMet(step.id, missing)))
            else if record.status.Completed? then
              Prepend([record], RunFrom(exec, steps, i + 1, Extend(ctx, step.id, record.output)))
            else RunResult(Failed, [record], [], Some(StepFailure(exec, step, i, ctx)))
  {
  }

  lemma RunFromEnds(exec: Executor, steps: seq<Step>, ctx: Context)
    requires ValidSteps(steps)
    ensures RunFrom(exec, steps, |steps|, ctx) == RunResult(Completed, [], FinalOutput(steps, ctx), None)
  {
  }

  lemma IdsOfNone(steps: seq<Step>)
    ensures Ids(steps[..0]) == {}
  {
  }

  lemma SuffixAfter<T>(base: seq<T>, added: seq<T>)
    ensures (base + added)[|base|..] == added && (base + added)[..|base|] == base
  {
  }

  lemma IdsOfNext(steps: seq<Step>, i: nat)
    requires i < |steps|
    ensures Ids(steps[..i + 1]) == Ids(steps[..i]) + {steps[i].id}
  {
    var a, b := steps[..i], steps[..i + 1];
    assert b[i] == steps[i];
    assert forall k :: 0 <= k < i ==> b[k] == a[k];
  }

  // ---------- What success means, independently of the engine ----------

  /** Attempt k returned, every earlier one raised, and a retried step returned something. */
  ghost predicate SucceedsAt(exec: Executor, i: nat, ctx: Context, max: nat, k: nat) {
    && 1 <= k <= max
    && (forall b :: 1 <= b < k ==> exec(i, b, ctx).Raised?)
    && exec(i, k, ctx).Returned?
    && (k == 1 || exec(i, k, ctx).output != [])
  }

  ghost predicate StepSucceeds(exec: Executor, step: Step, i: nat, ctx: Context) {
    exists k :: SucceedsAt(exec, i, ctx, step.retry.maxAttempts, k)
  }

  /** The step is recorded as completed exactly when it succeeds in that sense, and then with
      the output of the succeeding attempt and its number. */
  lemma StepCompletesIffItSucceeds(exec: Executor, step: Step, i: nat, ctx: Context)
    requires ValidRetry(step.retry)
    ensures StepRecord(exec, step, i, ctx).status.Completed? <==> StepSucceeds(exec, step, i, ctx)
    ensures forall k :: SucceedsAt(exec, i, ctx, step.retry.maxAttempts, k) ==>
              StepRecord(exec, step, i, ctx).attempt == k &&
              Returned(StepRecord(exec, step, i, ctx).output) == exec(i, k, ctx)
  {
    var max := step.retry.maxAttempts;
    var d := Decisive(exec, i, ctx, 1, max);
    forall k | SucceedsAt(exec, i, ctx, max, k)
      ensures k == d
    {
      DecisiveIs(exec, i, ctx, 1, k, max);
    }
    if StepRecord(exec, step, i, ctx).status.Completed? {
      assert SucceedsAt(exec, i, ctx, max, d);
    }
  }

  /** The audit record counts every attempt, up to the limit, and every attempt before the
      last one raised; each of those was followed by one wait. */
  lemma RecordedAttempts(exec: Executor, step: Step, i: nat, ctx: Context)
    requires ValidRetry(step.retry)
    ensures var r := StepRecord(exec, step, i, ctx);
            && 1 <= r.attempt <= step.retry.maxAttempts
            && r.waits == Waits(step.retry, r.attempt - 1)
            && (forall b :: 1 <= b < r.attempt ==> exec(i, b, ctx).Raised?)
            && (r.attempt < step.retry.maxAttempts ==> !exec(i, r.attempt, ctx).Raised?)
  {
  }

  /** A retried step whose successful attempt returns an empty dict still fails, with the
      error of an attempt that was retried; the documented retry policy says otherwise. (It
      takes an injected executor: no step type shipped both raises and returns nothing.) */
  lemma EmptyOutputAfterRetryFails(exec: Executor, step: Step, i: nat, ctx: Context, k: nat)
    requires ValidRetry(step.retry) && 1 < k <= step.retry.maxAttempts
    requires forall b :: 1 <= b < k ==> exec(i, b, ctx).Raised?
    requires exec(i, k, ctx) == Returned([])
    ensures StepRecord(exec, step, i, ctx).status.Failed?
    ensures StepRecord(exec, step, i, ctx).attempt == k
    ensures StepRecord(exec, step, i, ctx).error == Some(exec(i, k - 1, ctx).message)
    ensures StepFailure(exec, step, i, ctx) == RetriesExhausted(step.id, step.retry.maxAttempts)
  {
    DecisiveIs(exec, i, ctx, 1, k, step.retry.maxAttempts);
  }

  // ---------- The back-off schedule ----------

  function Pow(b: real, n: nat): real { if n == 0 then 1.0 else Pow(b, n - 1) * b }

  function Product(x: real, y: real): real { x * y }

  /** The initial delay, multiplied k times. */
  function Geometric(r: RetryConfig, k: nat): real {
    Product(r.initialDelay, Pow(r.multiplier, k))
  }

  /** n maximal delays. */
  function LongestWait(r: RetryConfig, n: nat): real {
    n as real * r.maxDelay
  }

  lemma LongestWaitGrows(r: RetryConfig, a: nat, b: nat)
    requires a <= b && r.maxDelay >= 0.0
    ensures LongestWait(r, a) <= LongestWait(r, b)
  {
    assert (b as real - a as real) * r.maxDelay >= 0.0;
  }

  lemma {:induction false} DelayIsGeometric(r: RetryConfig, k: nat)
    ensures Delay(r, k) == Geometric(r, k)
  {
    if k > 0 {
      DelayIsGeometric(r, k - 1);
      var p := Pow(r.multiplier, k - 1);
      assert (r.initialDelay * p) * r.multiplier == r.initialDelay * (p * r.multiplier);
    }
  }

  lemma {:induction false} DelayGrows(r: RetryConfig, k: nat)
    requires ValidRetry(r)
    ensures 0.0 <= Delay(r, k) <= Delay(r, k + 1)
  {
    if k > 0 {
      DelayGrows(r, k - 1);
    }
    var d := Delay(r, k);
    assert d * r.multiplier - d == d * (r.multiplier - 1.0) >= 0.0;
  }

  lemma {:induction false} WaitsAt(r: RetryConfig, n: nat, k: nat)
    requires k < n
    ensures Waits(r, n)[k] == Wait(r, k)
  {
    if k < n - 1 {
      WaitsAt(r, n - 1, k);
    }
  }

  lemma {:induction false} WaitsSum(r: RetryConfig, n: nat)
    requires ValidRetry(r)
    ensures 0.0 <= Sum(Waits(r, n)) <= LongestWait(r, n)
  {
    hide Wait, ValidRetry, LongestWait, Sum;
    LongestWaitStep(r, n);
    SumStep(Waits(r, n));
    if n > 0 {
      WaitsSum(r, n - 1);
      WaitGrows(r, n - 1);
      assert Waits(r, n)[..n - 1] == Waits(r, n - 1);
    }
  }

  lemma LongestWaitStep(r: RetryConfig, n: nat)
    ensures LongestWait(r, n) == if n == 0 then 0.0 else LongestWait(r, n - 1) + r.maxDelay
  {
    if n > 0 {
      assert n as real == (n - 1) as real + 1.0;
    }
  }

  lemma SumStep(ws: seq<real>)
    ensures Sum(ws) == if ws == [] then 0.0 else Sum(ws[..|ws| - 1]) + ws[|ws| - 1]
  {
  }

  /** Every retry schedule: wait k is initial * multiplier^k as long as that is at most the
      maximal delay, and the maximal delay after that; waits never shrink, and together they
      stay below one maximal delay per wait. */
  lemma BackoffSchedule(r: RetryConfig, n: nat)
    requires ValidRetry(r)
    ensures forall k :: 0 <= k < n ==>
              Waits(r, n)[k] == if Geometric(r, k) <= r.maxDelay then Geometric(r, k) else r.maxDelay
    ensures forall k :: 0 < k < n ==> Waits(r, n)[k - 1] <= Waits(r, n)[k]
    ensures 0.0 <= Sum(Waits(r, n)) <= LongestWait(r, n)
  {
    hide Waits, Wait, Geometric, Delay, Sum, ValidRetry;
    WaitsSum(r, n);
    forall k | 0 <= k < n
      ensures Waits(r, n)[k] == if Geometric(r, k) <= r.maxDelay then Geometric(r, k) else r.maxDelay
    {
      WaitsAt(r, n, k);
      WaitIsCapped(r, k);
    }
    forall k | 0 < k < n
      ensures Waits(r, n)[k - 1] <= Waits(r, n)[k]
    {
      WaitsAt(r, n, k - 1);
      WaitsAt(r, n, k);
      WaitGrows(r, k - 1);
    }
  }

  lemma WaitIsCapped(r: RetryConfig, k: nat)
    ensures Wait(r, k) == if Geometric(r, k) <= r.maxDelay then Geometric(r, k) else r.maxDelay
  {
    hide Geometric, Delay;
    DelayIsGeometric(r, k);
  }

  lemma WaitGrows(r: RetryConfig, k: nat)
    requires ValidRetry(r)
    ensures 0.0 <= Wait(r, k) <= Wait(r, k + 1) <= r.maxDelay
  {
    hide Delay;
    DelayGrows(r, k);
  }

  /** A step waits at most max_attempts - 1 times, for at most that many maximal delays. */
  lemma StepWaitsAreBounded(exec: Executor, step: Step, i: nat, ctx: Context)
    requires ValidRetry(step.retry)
    ensures var ws := StepRecord(exec, step, i, ctx).waits;
            && |ws| <= step.retry.maxAttempts - 1
            && Sum(ws) <= LongestWait(step.retry, step.retry.maxAttempts - 1)
  {
    hide StepRecord, Waits, Sum, LongestWait;
    RecordedAttempts(exec, step, i, ctx);
    var n := StepRecord(exec, step, i, ctx).attempt - 1;
    BoundedWaits(step.retry, n);
  }

  lemma BoundedWaits(r: RetryConfig, n: nat)
    requires ValidRetry(r) && n < r.maxAttempts
    ensures Sum(Waits(r, n)) <= LongestWait(r, r.maxAttempts - 1)
  {
    hide Waits, Sum, LongestWait;
    WaitsSum(r, n);
    LongestWaitGrows(r, n, r.maxAttempts - 1);
  }

  // ---------- Whole runs ----------

  /** The context step i sees, if the steps before it complete. */
  function ContextAt(exec: Executor, steps: seq<Step>, input: Value, i: nat): Context
    requires i <= |steps| && ValidSteps(steps)
    decreases i, 0
  {
    if i == 0 then Context(input, [])
    else
      Extend(ContextAt(exec, steps, input, i - 1), steps[i - 1].id, RecordAt(exec, steps, input, i - 1).output)
  }

  /** The record step i leaves, if the steps before it complete. */
  function RecordAt(exec: Executor, steps: seq<Step>, input: Value, i: nat): Record
    requires i < |steps| && ValidSteps(steps)
    decreases i, 1
  {
    StepRecord(exec, steps[i], i, ContextAt(exec, steps, input, i))
  }

  /** Every dependency of step i is the id of an earlier step. */
  predicate DependenciesEarlier(steps: seq<Step>, i: nat)
    requires i < |steps|
  {
    forall d :: d in steps[i].dependsOn ==> d in Ids(steps[..i])
  }

  ghost predicate Good(exec: Executor, steps: seq<Step>, input: Value, i: nat)
    requires i < |steps| && ValidSteps(steps)
  {
    && DependenciesEarlier(steps, i)
    && StepSucceeds(exec, steps[i], i, ContextAt(exec, steps, input, i))
  }

  lemma {:induction false} MissingIsEmptyIff(deps: seq<string>, completed: set<string>)
    ensures forall d :: d in Missing(deps, completed) <==> d in deps && d !in completed
    ensures Missing(deps, completed) == [] <==> forall d :: d in deps ==> d in completed
    ensures Missing(deps, completed) == Sequences.Filter(deps, d => d !in completed)
  {
    if deps != [] {
      MissingIsEmptyIff(deps[1..], completed);
      assert deps == [deps[0]] + deps[1..];
    }
  }

  /** The audit trail of a run whose steps i, i+1, ... up to `stop` go well. */
  ghost predicate TrailShape(exec: Executor, steps: seq<Step>, input: Value, i: nat, stop: nat, records: seq<Record>)
    requires i <= stop <= |steps| && ValidSteps(steps)
  {
    && |records| == stop - i + (if stop < |steps| && DependenciesEarlier(steps, stop) then 1 else 0)
    && (forall k :: 0 <= k < |records| ==>
          && records[k] == RecordAt(exec, steps, input, i + k)
          && records[k].status == if i + k < stop then Completed else Failed)
  }

  ghost predicate StopsAt(exec: Executor, steps: seq<Step>, input: Value, i: nat, stop: nat)
    requires ValidSteps(steps)
  {
    && i <= stop <= |steps|
    && (forall j :: i <= j < stop ==> Good(exec, steps, input, j))
    && (stop < |steps| ==> !Good(exec, steps, input, stop))
  }

  /** The error of a run that stops at step i. */
  function ErrorAt(exec: Executor, steps: seq<Step>, input: Value, i: nat): Failure
    requires i < |steps| && ValidSteps(steps)
  {
    if DependenciesEarlier(steps, i) then StepFailure(exec, steps[i], i, ContextAt(exec, steps, input, i))
    else DependenciesNotMet(steps[i].id, Sequences.Filter(steps[i].dependsOn, d => d !in Ids(steps[..i])))
  }

  lemma RunFromGoodStep(exec: Executor, steps: seq<Step>, input: Value, i: nat)
    requires i < |steps| && ValidSteps(steps) && Good(exec, steps, input, i)
    ensures RecordAt(exec, steps, input, i).status.Completed?
    ensures var r := RunFrom(exec, steps, i, ContextAt(exec, steps, input, i));
            var rest := RunFrom(exec, steps, i + 1, ContextAt(exec, steps, input, i + 1));
            r == rest.(records := [RecordAt(exec, steps, input, i)] + rest.records)
  {
    MissingIsEmptyIff(steps[i].dependsOn, Ids(steps[..i]));
    StepCompletesIffItSucceeds(exec, steps[i], i, ContextAt(exec, steps, input, i));
  }

  lemma RunFromBadStep(exec: Executor, steps: seq<Step>, input: Value, i: nat)
    requires i < |steps| && ValidSteps(steps) && !Good(exec, steps, input, i)
    ensures var r := RunFrom(exec, steps, i, ContextAt(exec, steps, input, i));
            && r.status.Failed?
            && r.records == if DependenciesEarlier(steps, i) then [RecordAt(exec, steps, input, i)] else []
    ensures DependenciesEarlier(steps, i) ==> RecordAt(exec, steps, input, i).status.Failed?
    ensures var r := RunFrom(exec, steps, i, ContextAt(exec, steps, input, i));
            r.output == [] && r.error == Some(ErrorAt(exec, steps, input, i))
  {
    MissingIsEmptyIff(steps[i].dependsOn, Ids(steps[..i]));
    StepCompletesIffItSucceeds(exec, steps[i], i, ContextAt(exec, steps, input, i));
  }

  lemma TrailShapeCons(exec: Executor, steps: seq<Step>, input: Value, i: nat, stop: nat, rest: seq<Record>)
    requires i < stop <= |steps| && ValidSteps(steps) && RecordAt(exec, steps, input, i).status.Completed?
    requires TrailShape(exec, steps, input, i + 1, stop, rest)
    ensures TrailShape(exec, steps, input, i, stop, [RecordAt(exec, steps, input, i)] + rest)
  {
    var records := [RecordAt(exec, steps, input, i)] + rest;
    forall k | 0 <= k < |records|
      ensures records[k] == RecordAt(exec, steps, input, i + k)
      ensures records[k].status == if i + k < stop then Completed else Failed
    {
      if k > 0 {
        assert records[k] == rest[k - 1] == RecordAt(exec, steps, input, i + 1 + (k - 1));
      }
    }
  }

  lemma {:induction false} RunFromShape(exec: Executor, steps: seq<Step>, input: Value, i: nat) returns (stop: nat)
    requires i <= |steps| && ValidSteps(steps)
    ensures StopsAt(exec, steps, input, i, stop)
    ensures var r := RunFrom(exec, steps, i, ContextAt(exec, steps, input, i));
            && r.status == (if stop == |steps| then Completed else Failed)
            && TrailShape(exec, steps, input, i, stop, r.records)
            && (stop < |steps| ==> r.output == [] && r.error == Some(ErrorAt(exec, steps, input, stop)))
            && (stop == |steps| ==> r.error == None)
    decreases |steps| - i
  {
    hide StepRecord, RecordAt, ContextAt, Good, DependenciesEarlier, ValidSteps, RunFrom, ErrorAt;
    if i == |steps| {
      RunFromEnds(exec, steps, ContextAt(exec, steps, input, i));
      return i;
    }
    if Good(exec, steps, input, i) {
      RunFromGoodStep(exec, steps, input, i);
      stop := RunFromShape(exec, steps, input, i + 1);
      var rest := RunFrom(exec, steps, i + 1, ContextAt(exec, steps, input, i + 1));
      TrailShapeCons(exec, steps, input, i, stop, rest.records);
    } else {
      RunFromBadStep(exec, steps, input, i);
      stop := i;
    }
  }

  /** The exact shape of every run: it completes if and only if every step is good; otherwise
      it fails at the first bad step with that step's error, after one completed record per
      earlier step, with a failed record for the bad step exactly when its dependencies were
      met, and nothing later. */
  lemma RunIsExactlyDetermined(exec: Executor, steps: seq<Step>, input: Value) returns (stop: nat)
    requires ValidSteps(steps)
    ensures StopsAt(exec, steps, input, 0, stop)
    ensures Run(exec, steps, input).status == (if stop == |steps| then Completed else Failed)
    ensures TrailShape(exec, steps, input, 0, stop, Run(exec, steps, input).records)
    ensures Run(exec, steps, input).error == if stop == |steps| then None else Some(ErrorAt(exec, steps, input, stop))
    ensures stop < |steps| ==> Run(exec, steps, input).output == []
    ensures Run(exec, steps, input).status.Completed? <==>
            forall i :: 0 <= i < |steps| ==> Good(exec, steps, input, i)
  {
    stop := RunFromShape(exec, steps, input, 0);
  }

  // ---------- The dependency graph ----------

  ghost predicate DependsOn(steps: seq<Step>, i: nat, j: nat) {
    i < |steps| && j < |steps| && steps[j].id in steps[i].dependsOn
  }

  /** With unique ids a completed run orders the graph: every edge points backwards. */
  lemma CompletedRunOrdersDependencies(exec: Executor, steps: seq<Step>, input: Value, i: nat, j: nat)
    requires ValidSteps(steps) && UniqueIds(steps)
    requires Run(exec, steps, input).status.Completed? && DependsOn(steps, i, j)
    ensures j < i
  {
    var _ := RunIsExactlyDetermined(exec, steps, input);
    assert Good(exec, steps, input, i);
    assert steps[j].id in Ids(steps[..i]);
    var k :| 0 <= k < i && steps[..i][k].id == steps[j].id;
    assert steps[k].id == steps[j].id;
  }

  /** A closed walk along depends_on edges; [i, i] is a self-loop. */
  ghost predicate Cycle(steps: seq<Step>, p: seq<nat>) {
    |p| >= 2 && p[0] == p[|p| - 1] && forall k :: 0 <= k < |p| - 1 ==> DependsOn(steps, p[k], p[k + 1])
  }

  lemma {:induction false} WalkDescends(exec: Executor, steps: seq<Step>, input: Value, p: seq<nat>)
    requires ValidSteps(steps) && UniqueIds(steps) && Run(exec, steps, input).status.Completed?
    requires |p| >= 2 && forall k :: 0 <= k < |p| - 1 ==> DependsOn(steps, p[k], p[k + 1])
    ensures p[|p| - 1] < p[0]
  {
    CompletedRunOrdersDependencies(exec, steps, input, p[0], p[1]);
    if |p| > 2 {
      WalkDescends(exec, steps, input, p[1..]);
    }
  }

  /** A definition with a dependency cycle fails whatever the executor does. */
  lemma CyclicWorkflowFails(exec: Executor, steps: seq<Step>, input: Value, p: seq<nat>)
    requires ValidSteps(steps) && UniqueIds(steps) && Cycle(steps, p)
    ensures Run(exec, steps, input).status.Failed?
  {
    var _ := RunIsExactlyDetermined(exec, steps, input);
    if Run(exec, steps, input).status.Completed? {
      WalkDescends(exec, steps, input, p);
    }
  }

  /** A dependency on the step itself or a later one fails the run whatever the executor does. */
  lemma ForwardReferenceFails(exec: Executor, steps: seq<Step>, input: Value, i: nat, j: nat)
    requires ValidSteps(steps) && UniqueIds(steps) && DependsOn(steps, i, j) && i <= j
    ensures Run(exec, steps, input).status.Failed?
  {
    var _ := RunIsExactlyDetermined(exec, steps, input);
    if Run(exec, steps, input).status.Completed? {
      CompletedRunOrdersDependencies(exec, steps, input, i, j);
    }
  }

  /** What the validators accept: no two steps with one id, and no dependency that is not the id
      of some step. */
  lemma ValidatorsAcceptIff(steps: seq<Step>)
    ensures UniqueIds(steps) <==>
            forall i, j :: 0 <= i < |steps| && 0 <= j < |steps| && steps[i].id == steps[j].id ==> i == j
    ensures DependenciesExist(steps) <==>
            forall i, d :: 0 <= i < |steps| && d in steps[i].dependsOn ==>
                             exists j :: 0 <= j < |steps| && steps[j].id == d
  {
  }

  /** The definition's validators accept such workflows: they check that dependencies exist,
      not that they come first. */
  lemma ValidatorsAcceptAForwardReference(exec: Executor, input: Value, retry: RetryConfig)
    requires ValidRetry(retry)
    ensures var steps := [Step("a", [], ["b"], retry), Step("b", [], [], retry)];
            && ValidSteps(steps) && UniqueIds(steps) && DependenciesExist(steps)
            && Run(exec, steps, input).status.Failed?
  {
    var steps := [Step("a", [], ["b"], retry), Step("b", [], [], retry)];
    assert "a"[0] != "b"[0];
    assert steps[1].id in Ids(steps);
    assert DependsOn(steps, 0, 1);
    ForwardReferenceFails(exec, steps, input, 0, 1);
  }

  /** Definition order is the only structural obstacle: some executor completes the workflow
      exactly when every dependency names an earlier step. */
  lemma CompletableIffListedInOrder(steps: seq<Step>, input: Value)
    requires ValidSteps(steps)
    ensures (exists exec: Executor :: Run(exec, steps, input).status.Completed?) <==>
            forall i :: 0 <= i < |steps| ==> DependenciesEarlier(steps, i)
  {
    if exec: Executor :| Run(exec, steps, input).status.Completed? {
      var _ := RunIsExactlyDetermined(exec, steps, input);
      forall i | 0 <= i < |steps|
        ensures DependenciesEarlier(steps, i)
      {
        assert Good(exec, steps, input, i);
      }
    }
    if forall i :: 0 <= i < |steps| ==> DependenciesEarlier(steps, i) {
      var eager: Executor := (_, _, _) => Returned([]);
      var _ := RunIsExactlyDetermined(eager, steps, input);
      forall i | 0 <= i < |steps|
        ensures Good(eager, steps, input, i)
      {
        assert SucceedsAt(eager, i, ContextAt(eager, steps, input, i), steps[i].retry.maxAttempts, 1);
      }
    }
  }

  // ---------- The growing context ----------

  lemma {:induction false} FindAfterPut(entries: seq<Entry>, key: string, value: Value, other: string)
    ensures Find(Put(entries, key, value), other) == if other == key then Some(value) else Find(entries, other)
  {
    if entries != [] && entries[0].key != key {
      FindAfterPut(entries[1..], key, value, other);
    }
  }

  lemma {:induction false} EarlierOutputStays(exec: Executor, steps: seq<Step>, input: Value, j: nat, i: nat)
    requires j < i <= |steps| && ValidSteps(steps) && UniqueIds(steps)
    ensures Find(ContextAt(exec, steps, input, i).outputs, steps[j].id) ==
            Some(Dict(RecordAt(exec, steps, input, j).output))
    decreases i
  {
    var before := ContextAt(exec, steps, input, i - 1).outputs;
    FindAfterPut(before, steps[i - 1].id, Dict(RecordAt(exec, steps, input, i - 1).output), steps[j].id);
    if j < i - 1 {
      EarlierOutputStays(exec, steps, input, j, i - 1);
    }
  }

  /** Data flow between steps: in the context of any later step, the template
      {{ steps.<id>.output.<key> }} reads what the step with that id returned under that key. */
  lemma LaterStepReadsEarlierOutput(exec: Executor, show: Show, steps: seq<Step>, input: Value, j: nat, i: nat,
                                    key: string)
    requires j < i <= |steps| && ValidSteps(steps) && UniqueIds(steps)
    requires IsName(steps[j].id) && IsName(key)
    ensures var output := RecordAt(exec, steps, input, j).output;
            Resolve(show, Root(ContextAt(exec, steps, input, i)),
                    "{{ " + JoinPath(steps[j].id, key) + " }}") == Render(show, Get(output, key))
  {
    var ctx := ContextAt(exec, steps, input, i);
    EarlierOutputStays(exec, steps, input, j, i);
    ReferenceReadsOutput(show, ctx, steps[j].id, RecordAt(exec, steps, input, j).output, key);
  }

  lemma ReferenceReadsOutput(show: Show, ctx: Context, id: string, output: Output, key: string)
    requires Find(ctx.outputs, id) == Some(Dict(output)) && IsName(id) && IsName(key)
    ensures Resolve(show, Root(ctx), "{{ " + JoinPath(id, key) + " }}") == Render(show, Get(output, key))
  {
    hide Resolve, Print, PyText.NoSpaces;
    var names := ["steps", id, "output", key];
    assert IsName("steps") && IsName("output") by { FixedNames(); }
    ResolveOfReference(show, Root(ctx), names);
    LookupThroughContext(ctx, id, output, key);
  }

  lemma FixedNames()
    ensures IsName("steps") && IsName("output")
  {
  }

  lemma ResolveOfReference(show: Show, context: Value, names: seq<string>)
    requires |names| > 0 && forall k :: 0 <= k < |names| ==> IsName(names[k])
    ensures Resolve(show, context, "{{ " + PyText.JoinDots(names) + " }}") == Render(show, Lookup(context, names))
  {
    hide Resolve, PyText.JoinDots, Lookup, Print, PrintSegment, Denote;
    var segs := [Ref(" ", names, " ")];
    ResolveOfPrint(show, context, segs);
    PrintOfReference(names);
    DenoteOfReference(show, context, names);
  }

  lemma PrintOfReference(names: seq<string>)
    requires |names| > 0 && forall k :: 0 <= k < |names| ==> IsName(names[k])
    ensures Print([Ref(" ", names, " ")]) == "{{ " + PyText.JoinDots(names) + " }}"
  {
    hide PyText.JoinDots, Print, PrintSegment, IsName;
    ReferenceIsSegment(names);
    PrintOne(Ref(" ", names, " "));
    PrintOfPath(names);
    PaddedPath(PyText.JoinDots(names));
  }

  lemma ReferenceIsSegment(names: seq<string>)
    requires |names| > 0 && forall k :: 0 <= k < |names| ==> IsName(names[k])
    ensures IsSegment(Ref(" ", names, " "))
  {
    hide IsName;
  }

  lemma PrintOfPath(names: seq<string>)
    requires IsSegment(Ref(" ", names, " "))
    ensures PrintSegment(Ref(" ", names, " ")) == "{{" + (" " + (PyText.JoinDots(names) + (" " + "}}")))
  {
    hide PyText.JoinDots, IsSegment;
  }

  lemma PrintOne(seg: Segment)
    requires IsSegment(seg)
    ensures Print([seg]) == PrintSegment(seg)
  {
    hide PrintSegment, IsSegment;
    assert [seg][1..] == [];
    assert Print([seg][1..]) == "";
    assert PrintSegment(seg) + "" == PrintSegment(seg);
  }

  lemma PaddedPath(path: string)
    ensures "{{" + (" " + (path + (" " + "}}"))) == "{{ " + path + " }}"
  {
  }

  lemma DenoteOfReference(show: Show, context: Value, names: seq<string>)
    ensures Denote(show, context, [Ref(" ", names, " ")]) == Render(show, Lookup(context, names))
  {
    hide Lookup, Render;
    var segs := [Ref(" ", names, " ")];
    assert segs[1..] == [];
    assert Denote(show, context, segs[1..]) == "";
  }

  function JoinPath(id: string, key: string): string {
    PyText.JoinDots(["steps", id, "output", key])
  }

  lemma FindSecond(a: Entry, b: Entry)
    requires a.key != b.key
    ensures Find([a, b], b.key) == Some(b.value)
  {
    assert [a, b][1..] == [b];
  }

  lemma {:induction false} FindStepEntry(outputs: seq<Entry>, id: string, output: Output)
    requires Find(outputs, id) == Some(Dict(output))
    ensures Find(StepEntries(outputs), id) ==
            Some(Dict([Entry("output", Dict(output)), Entry("status", Text("completed"))]))
  {
    if outputs[0].key != id {
      FindStepEntry(outputs[1..], id, output);
    }
  }

  lemma LookupStep(entries: seq<Entry>, key: string, path: seq<string>, value: Value)
    requires Find(entries, key) == Some(value)
    ensures Lookup(Dict(entries), [key] + path) == Lookup(value, path)
  {
    assert ([key] + path)[1..] == path;
  }

  lemma LookupThroughContext(ctx: Context, id: string, output: Output, key: string)
    requires Find(ctx.outputs, id) == Some(Dict(output))
    ensures Lookup(Root(ctx), ["steps", id, "output", key]) == Get(output, key)
  {
    var input, steps := Entry("input", ctx.input), Entry("steps", Dict(StepEntries(ctx.outputs)));
    var out, status := Entry("output", Dict(output)), Entry("status", Text("completed"));
    assert "input"[0] != "steps"[0];
    FindSecond(input, steps);
    FindStepEntry(ctx.outputs, id, output);
    LookupStep([input, steps], "steps", [id, "output", key], steps.value);
    assert ["steps"] + [id, "output", key] == ["steps", id, "output", key];
    LookupStep(StepEntries(ctx.outputs), id, ["output", key], Dict([out, status]));
    assert [id] + ["output", key] == [id, "output", key];
    LookupStep([out, status], "output", [key], Dict(output));
    assert ["output"] + [key] == ["output", key];
    assert Lookup(Dict(output), [key]) == Lookup(Get(output, key), [key][1..]) == Get(output, key);
  }

  /** Every step sees the run's own input. */
  lemma {:induction false} InputStays(exec: Executor, steps: seq<Step>, input: Value, i: nat)
    requires i <= |steps| && ValidSteps(steps)
    ensures ContextAt(exec, steps, input, i).input == input
    decreases i
  {
    if i > 0 {
      InputStays(exec, steps, input, i - 1);
    }
  }

  /** The template {{ input.<key> }} reads the run's input in every step. */
  lemma EveryStepReadsTheInput(exec: Executor, show: Show, steps: seq<Step>, entries: seq<Entry>, i: nat, key: string)
    requires i <= |steps| && ValidSteps(steps) && IsName(key)
    ensures Resolve(show, Root(ContextAt(exec, steps, Dict(entries), i)),
                    "{{ " + PyText.JoinDots(["input", key]) + " }}")
            == Render(show, Get(entries, key))
  {
    hide Resolve, Print, PyText.NoSpaces, PyText.JoinDots, StepEntries;
    var ctx := ContextAt(exec, steps, Dict(entries), i);
    InputStays(exec, steps, Dict(entries), i);
    var names := ["input", key];
    assert IsName("input") by { InputIsAName(); }
    ResolveOfReference(show, Root(ctx), names);
    LookupStep(Root(ctx).entries, "input", [key], Dict(entries));
    assert ["input"] + [key] == names;
    assert Lookup(Dict(entries), [key]) == Lookup(Get(entries, key), [key][1..]) == Get(entries, key);
  }

  lemma InputIsAName()
    ensures IsName("input") && IsName("status")
  {
  }

  lemma {:induction false} FindNoStepEntry(outputs: seq<Entry>, id: string)
    requires Find(outputs, id) == None
    ensures Find(StepEntries(outputs), id) == None
  {
    if outputs != [] {
      FindNoStepEntry(outputs[1..], id);
    }
  }

  lemma {:induction false} LaterStepHasNoOutput(exec: Executor, steps: seq<Step>, input: Value, j: nat, i: nat)
    requires i <= j < |steps| && ValidSteps(steps) && UniqueIds(steps)
    ensures Find(ContextAt(exec, steps, input, i).outputs, steps[j].id) == None
    decreases i
  {
    if i > 0 {
      LaterStepHasNoOutput(exec, steps, input, j, i - 1);
      FindAfterPut(ContextAt(exec, steps, input, i - 1).outputs, steps[i - 1].id,
                   Dict(RecordAt(exec, steps, input, i - 1).output), steps[j].id);
    }
  }

  lemma LookupStatus(ctx: Context, id: string)
    ensures Find(ctx.outputs, id).Some? && Find(ctx.outputs, id).value.Dict? ==>
              Lookup(Root(ctx), ["steps", id, "status"]) == Text("completed")
    ensures Find(ctx.outputs, id).None? ==> Lookup(Root(ctx), ["steps", id, "status"]) == Text("")
  {
    var input, steps := Entry("input", ctx.input), Entry("steps", Dict(StepEntries(ctx.outputs)));
    assert "input"[0] != "steps"[0];
    FindSecond(input, steps);
    LookupStep([input, steps], "steps", [id, "status"], steps.value);
    assert ["steps"] + [id, "status"] == ["steps", id, "status"];
    assert [id, "status"][1..] == ["status"] && ["status"][1..] == [];
    match Find(ctx.outputs, id) {
      case Some(Dict(output)) =>
        FindStepEntry(ctx.outputs, id, output);
        assert "output"[0] != "status"[0];
        FindSecond(Entry("output", Dict(output)), Entry("status", Text("completed")));
      case None => FindNoStepEntry(ctx.outputs, id);
      case _ =>
    }
  }

  /** The template {{ steps.<id>.status }} reads "completed" for the steps before the reading
      one, and nothing for itself and the steps after it. */
  lemma StatusIsVisibleAfterwards(exec: Executor, show: Show, steps: seq<Step>, input: Value, j: nat, i: nat)
    requires i <= |steps| && j < |steps| && ValidSteps(steps) && UniqueIds(steps) && IsName(steps[j].id)
    ensures Resolve(show, Root(ContextAt(exec, steps, input, i)),
                    "{{ " + PyText.JoinDots(["steps", steps[j].id, "status"]) + " }}")
            == if j < i then "completed" else ""
  {
    hide Resolve, Print, PyText.NoSpaces, PyText.JoinDots, Root, Lookup;
    var ctx, names := ContextAt(exec, steps, input, i), ["steps", steps[j].id, "status"];
    assert IsName("steps") && IsName("status") by {
      FixedNames();
      InputIsAName();
    }
    ResolveOfReference(show, Root(ctx), names);
    LookupStatus(ctx, steps[j].id);
    if j < i {
      EarlierOutputStays(exec, steps, input, j, i);
    } else {
      LaterStepHasNoOutput(exec, steps, input, j, i);
    }
  }

  /** A completed run returns the output of its last step. */
  lemma {:induction false} RunFromReturnsFinalOutput(exec: Executor, steps: seq<Step>, input: Value, i: nat)
    requires i <= |steps| && ValidSteps(steps)
    requires RunFrom(exec, steps, i, ContextAt(exec, steps, input, i)).status.Completed?
    ensures RunFrom(exec, steps, i, ContextAt(exec, steps, input, i)).output ==
            FinalOutput(steps, ContextAt(exec, steps, input, |steps|))
    decreases |steps| - i
  {
    hide StepRecord, FinalOutput;
    if i < |steps| {
      RunFromReturnsFinalOutput(exec, steps, input, i + 1);
    }
  }

  lemma CompletedRunReturnsLastOutput(exec: Executor, steps: seq<Step>, input: Value)
    requires ValidSteps(steps) && |steps| > 0 && Run(exec, steps, input).status.Completed?
    ensures |Run(exec, steps, input).records| == |steps|
    ensures Run(exec, steps, input).output == Run(exec, steps, input).records[|steps| - 1].output
  {
    hide StepRecord, Good, ValidSteps, RunFrom, StopsAt, RecordAt;
    var stop := RunIsExactlyDetermined(exec, steps, input);
    RunFromReturnsFinalOutput(exec, steps, input, 0);
    var n := |steps|;
    FindAfterPut(ContextAt(exec, steps, input, n - 1).outputs, steps[n - 1].id,
                 Dict(RecordAt(exec, steps, input, n - 1).output), steps[n - 1].id);
    assert Run(exec, steps, input).records[n - 1] == RecordAt(exec, steps, input, 0 + (n - 1));
  }
}
