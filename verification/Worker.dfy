/** The worker's retry loop: attempts over steps, with its event trace. Patches are assumed
    to be accepted by the workspace. */
module Worker {
  import opened Base

  datatype StepSpec = StepSpec(name: string, command: seq<string>)

  datatype CommandResult = CommandResult(exitCode: int, timedOut: bool, durationMs: int) {
    predicate Success() {
      exitCode == 0 && !timedOut
    }
  }

  datatype StepResult = StepResult(name: string, exitCode: int, success: bool, durationMs: int)

  /** What the generation phase comes to, when the task asks for one and a generator exists. */
  datatype Generation = NoProvider | Unusable | Generated(provider: string, files: nat, tokens: int)

  datatype Task = Task(id: string, taskType: string, generates: bool, steps: seq<StepSpec>, maxAttempts: int)

  datatype Report = Report(success: bool, attempts: nat, steps: seq<StepResult>, failedStep: Option<string>)

  datatype Event =
    | Started(attempt: nat)
    | CodeGenerated(provider: string, files: nat, tokens: int)
    | StepCompleted(step: StepResult)
    | Succeeded(attempts: nat)
    | FailedAttempt(failedStep: string, attempts: nat)
    | RetryScheduled(attempt: nat, maxAttempts: int, reason: string)

  const GEN_STEP := "generate"

  /** What the outside world answers: generation on each attempt, and each command of it. */
  datatype World = World(generate: nat -> Generation, run: (nat, nat) -> CommandResult)

  /** An empty text counts as absent. */
  function OrElse(text: string, default: string): string {
    if text == "" then default else text
  }

  // ---------------------------------------------------------------------------
  // What is promised

  /** Generation, if any, succeeded. */
  predicate GenerationOk(t: Task, w: World, attempt: nat) {
    t.generates ==> w.generate(attempt).Generated?
  }

  /** The generation and the whole plan succeed on this attempt. */
  predicate AttemptSucceeds(t: Task, w: World, attempt: nat) {
    GenerationOk(t, w, attempt) && forall i :: 0 <= i < |t.steps| ==> w.run(attempt, i).Success()
  }

  function ResultOf(spec: StepSpec, r: CommandResult): StepResult {
    StepResult(spec.name, r.exitCode, r.Success(), r.durationMs)
  }

  function GenerationStep(ok: bool): StepResult {
    StepResult(GEN_STEP, if ok then 0 else 1, ok, 0)
  }

  /** The step results of the plan, in order, for its first `n` steps. */
  function PlanPrefix(t: Task, w: World, attempt: nat, n: nat): seq<StepResult>
    requires n <= |t.steps|
  {
    seq(n, i requires 0 <= i < n => ResultOf(t.steps[i], w.run(attempt, i)))
  }

  /** `n` plan steps ran: none after a failed generation, and all but the last succeeded;
      a shorter prefix than the plan ends in a failure. */
  predicate RanExactly(t: Task, w: World, attempt: nat, n: nat) {
    && n <= |t.steps|
    && (!GenerationOk(t, w, attempt) ==> n == 0)
    && (forall i :: 0 <= i < n - 1 ==> w.run(attempt, i).Success())
    && (GenerationOk(t, w, attempt) && n < |t.steps| ==> n > 0 && !w.run(attempt, n - 1).Success())
  }

  /** How many plan steps the attempt runs, from step `i` on. */
  function RunFrom(t: Task, w: World, attempt: nat, i: nat): (n: nat)
    requires i <= |t.steps|
    ensures i <= n <= |t.steps|
    ensures forall j :: i <= j < n - 1 ==> w.run(attempt, j).Success()
    ensures n < |t.steps| ==> n > i && !w.run(attempt, n - 1).Success()
    decreases |t.steps| - i
  {
    if i == |t.steps| then i
    else if w.run(attempt, i).Success() then RunFrom(t, w, attempt, i + 1)
    else i + 1
  }

  /** The number of plan steps an attempt runs. */
  function StepsRun(t: Task, w: World, attempt: nat): (n: nat)
    ensures RanExactly(t, w, attempt, n)
  {
    if GenerationOk(t, w, attempt) then RunFrom(t, w, attempt, 0) else 0
  }

  /** The steps a report of this attempt lists. */
  function ReportSteps(t: Task, w: World, attempt: nat): seq<StepResult> {
    (if t.generates then [GenerationStep(GenerationOk(t, w, attempt))] else [])
    + PlanPrefix(t, w, attempt, StepsRun(t, w, attempt))
  }

  /** The failed step's name, if the attempt fails. */
  function FailedStep(t: Task, w: World, attempt: nat): Option<string> {
    var n := StepsRun(t, w, attempt);
    if !GenerationOk(t, w, attempt) then Some(GEN_STEP)
    else if n > 0 && !w.run(attempt, n - 1).Success() then Some(t.steps[n - 1].name)
    else None
  }

  function Completions(steps: seq<StepResult>): seq<Event> {
    seq(|steps|, i requires 0 <= i < |steps| => StepCompleted(steps[i]))
  }

  function GenerationEvents(t: Task, w: World, attempt: nat): seq<Event> {
    var g := w.generate(attempt);
    if t.generates && g.Generated?
    then [CodeGenerated(g.provider, g.files, g.tokens), StepCompleted(GenerationStep(true))] else []
  }

  function Verdict(t: Task, w: World, attempt: nat): Event {
    match FailedStep(t, w, attempt)
    case None => Succeeded(attempt)
    case Some(name) => FailedAttempt(OrElse(name, "unknown"), attempt)
  }

  /** The events of one attempt. */
  function AttemptTrace(t: Task, w: World, attempt: nat): seq<Event> {
    [Started(attempt)] + GenerationEvents(t, w, attempt)
    + Completions(PlanPrefix(t, w, attempt, StepsRun(t, w, attempt))) + [Verdict(t, w, attempt)]
  }

  /** The number of plan steps of an attempt is determined by what they come to, and an
      attempt names no failed step exactly when everything succeeded. */
  lemma AttemptIsDetermined(t: Task, w: World, attempt: nat, n: nat)
    requires RanExactly(t, w, attempt, n)
    ensures n == StepsRun(t, w, attempt)
    ensures FailedStep(t, w, attempt).None? <==> AttemptSucceeds(t, w, attempt)
  {
  }

  function RetryEvents(t: Task, w: World, attempt: nat, limit: int): seq<Event> {
    var failed := FailedStep(t, w, attempt);
    if failed.Some? && attempt < limit then [RetryScheduled(attempt, limit, OrElse(failed.value, "execution failed"))]
    else []
  }

  /** The events of one attempt and the retry that may follow it. */
  function Round(t: Task, w: World, attempt: nat, limit: int): seq<Event> {
    AttemptTrace(t, w, attempt) + RetryEvents(t, w, attempt, limit)
  }

  /** The events of attempts 1 to `n`. */
  function Trace(t: Task, w: World, n: nat, limit: int): seq<Event> {
    if n == 0 then [] else Trace(t, w, n - 1, limit) + Round(t, w, n, limit)
  }

  lemma TraceExtends(start: seq<Event>, t: Task, w: World, n: nat, limit: int)
    requires n >= 1
    ensures start + Trace(t, w, n - 1, limit) + Round(t, w, n, limit) == start + Trace(t, w, n, limit)
  {
    assert Trace(t, w, n, limit) == Trace(t, w, n - 1, limit) + Round(t, w, n, limit);
  }

  function ReportOf(t: Task, w: World, attempt: nat): Report {
    Report(AttemptSucceeds(t, w, attempt), attempt, ReportSteps(t, w, attempt), FailedStep(t, w, attempt))
  }

  /** Execution ends after attempt `n`: the first success, or the last attempt permitted. */
  predicate Finishes(t: Task, w: World, n: nat) {
    && 1 <= n <= Max(1, t.maxAttempts)
    && (forall a :: 1 <= a < n ==> !AttemptSucceeds(t, w, a))
    && (AttemptSucceeds(t, w, n) || n == Max(1, t.maxAttempts))
  }

  // ---------------------------------------------------------------------------
  // Reports and traces, read off the outside world

  /** The command exited with zero in time. */
  predicate Passed(r: CommandResult) {
    r.exitCode == 0 && !r.timedOut
  }

  /** Generation is not asked for, or gave files. */
  predicate CanRun(t: Task, w: World, attempt: nat) {
    !t.generates || w.generate(attempt).Generated?
  }

  /** The plan runs up to its first failing command, and not at all after a failed generation. */
  predicate PlanRan(t: Task, w: World, attempt: nat, n: nat) {
    && n <= |t.steps|
    && (!CanRun(t, w, attempt) ==> n == 0)
    && (forall i: nat :: i + 1 < n ==> Passed(w.run(attempt, i)))
    && (CanRun(t, w, attempt) && n < |t.steps| ==> n > 0 && !Passed(w.run(attempt, n - 1)))
  }

  /** Every listed step with what its command came to. */
  predicate StepsTell(t: Task, w: World, attempt: nat, n: nat, steps: seq<StepResult>) {
    var first := if t.generates then 1 else 0;
    && n <= |t.steps| && |steps| == first + n
    && (t.generates ==> steps[0] == StepResult("generate", if CanRun(t, w, attempt) then 0 else 1, CanRun(t, w, attempt), 0))
    && forall i: nat :: i < n ==>
         var c := w.run(attempt, i);
         steps[first + i] == StepResult(t.steps[i].name, c.exitCode, Passed(c), c.durationMs)
  }

  /** The report of an attempt that ran `n` steps of the plan; the failed step is the one that
      failed. */
  predicate ReportTells(t: Task, w: World, attempt: nat, n: nat, r: Report) {
    var ok := CanRun(t, w, attempt) && forall i: nat :: i < |t.steps| ==> Passed(w.run(attempt, i));
    && PlanRan(t, w, attempt, n) && StepsTell(t, w, attempt, n, r.steps)
    && (r.success <==> ok) && r.attempts == attempt
    && r.failedStep ==
         if ok then None
         else if !CanRun(t, w, attempt) then Some("generate")
         else if n == 0 then None else Some(t.steps[n - 1].name)
  }

  /** The events of an attempt: its start, the generated files and the completion of each listed
      step that is not a failed generation, its verdict, and a retry if it failed with attempts
      left. A failed step without a name is called "unknown" in the verdict. */
  predicate RoundTells(t: Task, w: World, attempt: nat, limit: int, r: Report, events: seq<Event>) {
    var g, name := w.generate(attempt), if r.failedStep.Some? then r.failedStep.value else "";
    events == [Started(attempt)]
              + (if t.generates && g.Generated? then [CodeGenerated(g.provider, g.files, g.tokens)] else [])
              + Finished(if CanRun(t, w, attempt) then r.steps else [])
              + [if r.success then Succeeded(attempt) else FailedAttempt(if name == "" then "unknown" else name, attempt)]
              + (if !r.success && attempt < limit
                 then [RetryScheduled(attempt, limit, if name == "" then "execution failed" else name)] else [])
  }

  function Finished(steps: seq<StepResult>): seq<Event> {
    if steps == [] then [] else [StepCompleted(steps[0])] + Finished(steps[1..])
  }

  lemma {:induction false} FinishedIsCompletions(steps: seq<StepResult>)
    ensures Finished(steps) == Completions(steps)
  {
    if steps != [] {
      FinishedIsCompletions(steps[1..]);
      assert Completions(steps)[0] == StepCompleted(steps[0]);
      assert Completions(steps) == [StepCompleted(steps[0])] + Completions(steps[1..]);
    }
  }

  lemma StepsAreTold(t: Task, w: World, attempt: nat)
    ensures StepsTell(t, w, attempt, StepsRun(t, w, attempt), ReportSteps(t, w, attempt))
  {
  }

  lemma AllPassedIff(t: Task, w: World, attempt: nat)
    ensures (CanRun(t, w, attempt) <==> GenerationOk(t, w, attempt))
    ensures AttemptSucceeds(t, w, attempt) <==>
            CanRun(t, w, attempt) && forall i: nat :: i < |t.steps| ==> Passed(w.run(attempt, i))
  {
  }

  lemma PlanRanIs(t: Task, w: World, attempt: nat, n: nat)
    requires RanExactly(t, w, attempt, n)
    ensures PlanRan(t, w, attempt, n)
  {
  }

  /** An attempt that could run names the step it ended at, unless everything passed. */
  lemma FailureIsLast(t: Task, w: World, attempt: nat, n: nat)
    requires n == StepsRun(t, w, attempt)
    ensures FailedStep(t, w, attempt)
            == if AttemptSucceeds(t, w, attempt) then None
               else if !CanRun(t, w, attempt) then Some("generate")
               else if n == 0 then None else Some(t.steps[n - 1].name)
  {
    AttemptIsDetermined(t, w, attempt, n);
  }

  lemma ReportIsTold(t: Task, w: World, attempt: nat)
    ensures ReportTells(t, w, attempt, StepsRun(t, w, attempt), ReportOf(t, w, attempt))
  {
    var n := StepsRun(t, w, attempt);
    StepsAreTold(t, w, attempt);
    PlanRanIs(t, w, attempt, n);
    AllPassedIff(t, w, attempt);
    FailureIsLast(t, w, attempt, n);
  }

  lemma CompletionsStart(step: StepResult, steps: seq<StepResult>)
    ensures Completions([step] + steps) == [StepCompleted(step)] + Completions(steps)
  {
  }

  /** What lies between the start and the verdict. */
  lemma MiddleIsTold(t: Task, w: World, attempt: nat, plan: seq<StepResult>)
    requires plan == PlanPrefix(t, w, attempt, StepsRun(t, w, attempt))
    ensures var g := w.generate(attempt);
            GenerationEvents(t, w, attempt) + Completions(plan)
            == (if t.generates && g.Generated? then [CodeGenerated(g.provider, g.files, g.tokens)] else [])
               + Finished(if CanRun(t, w, attempt) then ReportSteps(t, w, attempt) else [])
  {
    if CanRun(t, w, attempt) {
      FinishedIsCompletions(ReportSteps(t, w, attempt));
      if t.generates {
        var g, done := w.generate(attempt), StepCompleted(GenerationStep(true));
        CompletionsStart(GenerationStep(true), plan);
        Regroup([CodeGenerated(g.provider, g.files, g.tokens)], [done], Completions(plan), []);
        assert GenerationEvents(t, w, attempt) == [CodeGenerated(g.provider, g.files, g.tokens)] + [done];
      } else {
        assert [] + plan == plan;
      }
    } else {
      assert plan == [];
    }
  }

  /** For every attempt: its report and its events are those of what the world answered. */
  lemma RoundIsTold(t: Task, w: World, attempt: nat, limit: int)
    ensures RoundTells(t, w, attempt, limit, ReportOf(t, w, attempt), Round(t, w, attempt, limit))
    ensures ReportTells(t, w, attempt, StepsRun(t, w, attempt), ReportOf(t, w, attempt))
  {
    ReportIsTold(t, w, attempt);
    var plan, rep, g := PlanPrefix(t, w, attempt, StepsRun(t, w, attempt)), ReportOf(t, w, attempt), w.generate(attempt);
    MiddleIsTold(t, w, attempt, plan);
    AttemptIsDetermined(t, w, attempt, StepsRun(t, w, attempt));
    Regroup([Started(attempt)], GenerationEvents(t, w, attempt), Completions(plan), [Verdict(t, w, attempt)]);
    Regroup([Started(attempt)], if t.generates && g.Generated? then [CodeGenerated(g.provider, g.files, g.tokens)] else [],
            Finished(if CanRun(t, w, attempt) then rep.steps else []), [Verdict(t, w, attempt)]);
  }

  lemma Regroup(a: seq<Event>, b: seq<Event>, c: seq<Event>, d: seq<Event>)
    ensures a + b + c + d == a + (b + c) + d
    ensures a + b + c == a + (b + c)
  {
  }

  /** The trace of an execution is the rounds of its attempts, one after another. */
  lemma TraceIsRounds(t: Task, w: World, n: nat, limit: int)
    ensures Joined(seq(n, a requires 0 <= a < n => Round(t, w, a + 1, limit))) == Trace(t, w, n, limit)
  {
    JoinedIs(seq(n, a requires 0 <= a < n => Round(t, w, a + 1, limit)), (k: nat) => Trace(t, w, k, limit));
  }

  lemma {:induction false} JoinedIs(parts: seq<seq<Event>>, whole: nat -> seq<Event>)
    requires whole(0) == [] && forall k: nat :: k < |parts| ==> whole(k + 1) == whole(k) + parts[k]
    ensures Joined(parts) == whole(|parts|)
  {
    if parts != [] {
      JoinedIs(parts[..|parts| - 1], whole);
    }
  }

  function Joined(rounds: seq<seq<Event>>): seq<Event> {
    if rounds == [] then [] else Joined(rounds[..|rounds| - 1]) + rounds[|rounds| - 1]
  }

  class OpenClawWorker {
    var events: seq<Event>

    constructor ()
      ensures events == []
    {
      events := [];
    }

    method Emit(e: Event)
      modifies this
      ensures events == old(events) + [e]
    {
      events := events + [e];
    }

    /** The generation phase: its step result, if there is one. */
    method Generate(t: Task, w: World, attempt: nat) returns (step: Option<StepResult>)
      modifies this
      ensures step == if t.generates then Some(GenerationStep(GenerationOk(t, w, attempt))) else None
      ensures events == old(events) + GenerationEvents(t, w, attempt)
    {
      if !t.generates {
        return None;
      }
      match w.generate(attempt) {
        case NoProvider => return Some(GenerationStep(false));
        case Unusable => return Some(GenerationStep(false));
        case Generated(provider, files, tokens) =>
          Emit(CodeGenerated(provider, files, tokens));
          Emit(StepCompleted(GenerationStep(true)));
          return Some(GenerationStep(true));
      }
    }

    /** Run the plan until a step fails. */
    method RunPlan(t: Task, w: World, attempt: nat) returns (steps: seq<StepResult>, failed: Option<string>)
      requires GenerationOk(t, w, attempt)
      modifies this
      ensures steps == PlanPrefix(t, w, attempt, StepsRun(t, w, attempt))
      ensures failed == FailedStep(t, w, attempt)
      ensures events == old(events) + Completions(steps)
    {
      steps, failed := [], None;
      for i := 0 to |t.steps|
        invariant |steps| == i && steps == PlanPrefix(t, w, attempt, i)
        invariant forall j :: 0 <= j < i ==> w.run(attempt, j).Success()
        invariant failed == None && events == old(events) + Completions(steps)
      {
        var step := ResultOf(t.steps[i], w.run(attempt, i));
        steps := steps + [step];
        Emit(StepCompleted(step));
        if !step.success {
          failed := Some(step.name);
          AttemptIsDetermined(t, w, attempt, i + 1);
          return;
        }
      }
      AttemptIsDetermined(t, w, attempt, |t.steps|);
    }

    /** One attempt. A failed generation runs no plan step; success holds exactly if the
        generation, if any, and the whole plan succeeded. */
    method ExecuteOnce(t: Task, w: World, attempt: nat) returns (r: Report)
      modifies this
      ensures r == ReportOf(t, w, attempt)
      ensures events == old(events) + AttemptTrace(t, w, attempt)
    {
      Emit(Started(attempt));
      var steps, failed := [], None;
      var gen := Generate(t, w, attempt);
      if gen.Some? {
        steps := [gen.value];
        if !gen.value.success {
          failed := Some(gen.value.name);
        }
      }
      if failed.None? {
        var plan;
        plan, failed := RunPlan(t, w, attempt);
        steps := steps + plan;
      }
      AttemptIsDetermined(t, w, attempt, StepsRun(t, w, attempt));
      r := Report(failed.None?, attempt, steps, failed);
      Announce(attempt, failed);
    }

    /** The verdict of an attempt. */
    method Announce(attempt: nat, failed: Option<string>)
      modifies this
      ensures events == old(events) + [if failed.None? then Succeeded(attempt)
                                       else FailedAttempt(OrElse(failed.value, "unknown"), attempt)]
    {
      if failed.None? {
        Emit(Succeeded(attempt));
      } else {
        Emit(FailedAttempt(OrElse(failed.value, "unknown"), attempt));
      }
    }

    /** An attempt and the retry event that may follow it. */
    method ExecuteAndRetry(t: Task, w: World, attempt: nat, limit: int) returns (r: Report)
      modifies this
      ensures r == ReportOf(t, w, attempt)
      ensures events == old(events) + Round(t, w, attempt, limit)
    {
      r := ExecuteOnce(t, w, attempt);
      AttemptIsDetermined(t, w, attempt, StepsRun(t, w, attempt));
      if !r.success && attempt < limit {
        Emit(RetryScheduled(attempt, limit, OrElse(r.failedStep.value, "execution failed")));
      }
    }

    /** Execute with bounded retries. The loop stops at the first attempt that succeeds, or
        after max(1, max_attempts) failures, and emits exactly the events of its attempts. */
    method Execute(t: Task, w: World) returns (r: Report)
      modifies this
      ensures Finishes(t, w, r.attempts)
      ensures r == ReportOf(t, w, r.attempts)
      ensures events == old(events) + Trace(t, w, r.attempts, Max(1, t.maxAttempts))
    {
      var limit := Max(1, t.maxAttempts);
      var attempt := 1;
      while true
        invariant 1 <= attempt <= limit
        invariant forall a :: 1 <= a < attempt ==> !AttemptSucceeds(t, w, a)
        invariant events == old(events) + Trace(t, w, attempt - 1, limit)
        decreases limit - attempt
      {
        TraceExtends(old(events), t, w, attempt, limit);
        r := ExecuteAndRetry(t, w, attempt, limit);
        if r.success || attempt == limit {
          return;
        }
        attempt := attempt + 1;
      }
    }
  }

  // ---------------------------------------------------------------------------
  // Counting retries

  function RetryCount(events: seq<Event>): nat {
    if events == [] then 0
    else RetryCount(events[..|events| - 1]) + if events[|events| - 1].RetryScheduled? then 1 else 0
  }

  lemma {:induction false} RetriesAppend(a: seq<Event>, b: seq<Event>)
    ensures RetryCount(a + b) == RetryCount(a) + RetryCount(b)
  {
    if b == [] {
      assert a + b == a;
    } else {
      RetriesAppend(a, b[..|b| - 1]);
      assert (a + b)[..|a + b| - 1] == a + b[..|b| - 1];
    }
  }

  lemma {:induction false} NoRetries(events: seq<Event>)
    requires forall i :: 0 <= i < |events| ==> !events[i].RetryScheduled?
    ensures RetryCount(events) == 0
  {
    if events != [] {
      NoRetries(events[..|events| - 1]);
    }
  }

  /** `n` attempts of which all but the last failed emit n - 1 retry events, and one more only
      if the last failed with attempts left. */
  lemma {:induction false} RetriesOfTrace(t: Task, w: World, n: nat, limit: int)
    requires 1 <= n <= limit && forall a :: 1 <= a < n ==> !AttemptSucceeds(t, w, a)
    ensures RetryCount(Trace(t, w, n, limit)) == n - 1 + |RetryEvents(t, w, n, limit)|
  {
    if n > 1 {
      RetriesOfTrace(t, w, n - 1, limit);
      AttemptIsDetermined(t, w, n - 1, StepsRun(t, w, n - 1));
    }
    RetriesOfRound(t, w, n, limit);
    RetriesAppend(Trace(t, w, n - 1, limit), Round(t, w, n, limit));
  }

  lemma RetriesOfRound(t: Task, w: World, n: nat, limit: int)
    ensures RetryCount(Round(t, w, n, limit)) == |RetryEvents(t, w, n, limit)|
  {
    var retry := RetryEvents(t, w, n, limit);
    NoRetries(AttemptTrace(t, w, n));
    RetriesAppend(AttemptTrace(t, w, n), retry);
    if retry != [] {
      assert retry[..0] == [];
    }
  }

  /** A finished execution with `n` attempts has emitted exactly n - 1 retry events. */
  lemma RetriesAreAttemptsMinusOne(t: Task, w: World, n: nat)
    requires Finishes(t, w, n)
    ensures RetryCount(Trace(t, w, n, Max(1, t.maxAttempts))) == n - 1
  {
    RetriesOfTrace(t, w, n, Max(1, t.maxAttempts));
    AttemptIsDetermined(t, w, n, StepsRun(t, w, n));
  }
}
