/**
  The workflow executor: one step after another through the tool port, the output of
  each threaded into the metadata of the next, with cooperative cancellation.

  What the port answers and when the signal is raised are parameters.  Output is the
  serialised text of a step's output; None is null.
 */
module WorkflowExecution {
  import opened Wrappers

  datatype Status = Completed | Failed | Cancelled

  datatype Phase = Bridge | Execution

  /** The executor's own error codes and texts, and those reported by the port. */
  datatype Code = BridgeFailed | ExecutionFailed | ExecutionCancelled | Reported(code: string)
  datatype Message = StepFailed | StepCancelled | RunCancelled | Told(text: string)

  datatype StepError = StepError(code: Code, message: Message, phase: Phase)

  /** Empty keys are absent keys, as in the original's conditions. */
  datatype Mapping = Mapping(
    previousOutputKey: string,
    previousActionIdKey: string,
    previousStatusKey: string,
    staticMetadata: seq<(string, string)>)

  const NO_MAPPING: Mapping := Mapping("", "", "", [])

  /** The arguments are copied into the action; only their text matters here. */
  datatype Step = Step(id: string, agentId: string, toolId: string, args: string, contextMapping: Option<Mapping>)

  datatype Definition = Definition(id: string, steps: seq<Step>, metadata: seq<(string, string)>)

  datatype Output = Output(text: Option<string>)

  datatype StepResult = StepResult(
    stepId: string, agentId: string, toolId: string, actionId: string,
    status: Status, output: Output, error: Option<StepError>,
    startedAt: int, completedAt: int, durationMs: int)

  datatype PortError = PortError(code: string, message: string)

  datatype Outcome =
    | Throws(message: string)
    | Rejected(actionId: string, code: string, reason: string)
    | Fails(actionId: string, error: Option<PortError>)
    | IsCancelled(actionId: string, error: Option<PortError>)
    | Succeeds(actionId: string, output: Output)

  /** The id of a run and the clock readings at its start and its end. */
  datatype Envelope = Envelope(executionId: string, startedAt: int, completedAt: int)

  datatype WorkflowResult = WorkflowResult(
    executionId: string, workflowId: string, status: Status, steps: seq<StepResult>, finalOutput: Output,
    startedAt: int, completedAt: int, durationMs: int, error: Option<StepError>)

  /** A metadata value: a text, or the serialised output, or the name of a status. */
  datatype MetadataValue = Plain(text: string) | SerialisedOutput(output: Output) | StatusName(status: Status)

  type Metadata = map<string, MetadataValue>

  /** What the tool port is called with. */
  datatype Action = Action(actionId: string, agentId: string, toolId: string, args: string, metadata: Metadata)

  const NULL := Output(None)

  /** The one key whose assignment makes no entry. */
  const PROTO := "__proto__"

  const CANCELLED_ERROR: StepError := StepError(ExecutionCancelled, RunCancelled, Execution)

  // ----- one step

  function ErrorOr(error: Option<PortError>, code: Code, message: Message): Option<StepError> {
    if error.Some? then Some(StepError(Reported(error.value.code), Told(error.value.message), Execution))
    else Some(StepError(code, message, Execution))
  }

  /** What the surroundings do at each step: raise the signal before it, name its action, answer it, show the time. */
  datatype Situation = Situation(aborted: bool, actionId: string, outcome: Outcome, startedAt: int, completedAt: int)

  function Result(step: Step, s: Situation, actionId: string, status: Status, output: Output, error: Option<StepError>)
    : StepResult
  {
    StepResult(step.id, step.agentId, step.toolId, actionId, status, output, error,
               s.startedAt, s.completedAt, s.completedAt - s.startedAt)
  }

  function ToStepResult(step: Step, s: Situation): StepResult {
    match s.outcome
    case Throws(message) => Result(step, s, s.actionId, Failed, NULL, Some(StepError(BridgeFailed, Told(message), Bridge)))
    case Rejected(id, code, reason) => Result(step, s, id, Failed, NULL, Some(StepError(Reported(code), Told(reason), Bridge)))
    case Fails(id, error) => Result(step, s, id, Failed, NULL, ErrorOr(error, ExecutionFailed, StepFailed))
    case IsCancelled(id, error) => Result(step, s, id, Cancelled, NULL, ErrorOr(error, ExecutionCancelled, StepCancelled))
    case Succeeds(id, output) => Result(step, s, id, Completed, output, None)
  }

  function CancelledResult(step: Step, s: Situation): StepResult {
    Result(step, s, s.actionId, Cancelled, NULL, Some(CANCELLED_ERROR)).(durationMs := 0)
  }

  // ----- metadata

  /** The value of the last entry with the key, as assignments one after another leave it. */
  function LastEntry(entries: seq<(string, string)>, key: string): Option<MetadataValue> {
    if entries == [] then None
    else if entries[|entries| - 1].0 == key then Some(Plain(entries[|entries| - 1].1))
    else LastEntry(entries[..|entries| - 1], key)
  }

  function At(m: Metadata, key: string): Option<MetadataValue> {
    if key in m then Some(m[key]) else None
  }

  function OrElse(first: Option<MetadataValue>, second: Option<MetadataValue>): Option<MetadataValue> {
    if first.Some? then first else second
  }

  /** Which value wins for a key: status, action id, output of the predecessor, then static, then workflow metadata. */
  function Winning(mapping: Mapping, previous: Option<StepResult>, workflow: seq<(string, string)>, key: string)
    : Option<MetadataValue>
  {
    if previous.Some? && key != "" && key == mapping.previousStatusKey then Some(StatusName(previous.value.status))
    else if previous.Some? && key != "" && key == mapping.previousActionIdKey then Some(Plain(previous.value.actionId))
    else if previous.Some? && key != "" && key == mapping.previousOutputKey then Some(SerialisedOutput(previous.value.output))
    else OrElse(LastEntry(mapping.staticMetadata, key), LastEntry(workflow, key))
  }

  /** `metadata[key] = value` on a plain object: a text assigned to its prototype is dropped. */
  function Assign(m: Metadata, key: string, value: MetadataValue): Metadata {
    if key == PROTO then m else m[key := value]
  }

  /** The entries assigned one after another. */
  function Overlay(start: Metadata, entries: seq<(string, string)>): Metadata {
    if entries == [] then start
    else Assign(Overlay(start, entries[..|entries| - 1]), entries[|entries| - 1].0, Plain(entries[|entries| - 1].1))
  }

  function Put(m: Metadata, key: string, value: MetadataValue): Metadata {
    if key == "" then m else Assign(m, key, value)
  }

  function MetadataFor(step: Step, previous: Option<StepResult>, workflow: seq<(string, string)>): Metadata {
    var mapping := step.contextMapping.GetOr(NO_MAPPING);
    var base := Overlay(Overlay(map[], workflow), mapping.staticMetadata);
    if previous.None? then base else WithPrevious(base, mapping, previous.value)
  }

  function WithPrevious(base: Metadata, mapping: Mapping, previous: StepResult): Metadata {
    Put(Put(Put(base, mapping.previousOutputKey, SerialisedOutput(previous.output)),
            mapping.previousActionIdKey, Plain(previous.actionId)),
        mapping.previousStatusKey, StatusName(previous.status))
  }

  lemma {:induction false} OverlayAt(start: Metadata, entries: seq<(string, string)>, key: string)
    ensures At(Overlay(start, entries), key) ==
            if key == PROTO then At(start, key) else OrElse(LastEntry(entries, key), At(start, key))
    decreases |entries|
  {
    if entries != [] {
      OverlayAt(start, entries[..|entries| - 1], key);
    }
  }

  /** Later layers overlay earlier ones, key by key; the prototype key never has a value. */
  lemma MetadataOverlays(step: Step, previous: Option<StepResult>, workflow: seq<(string, string)>, key: string)
    ensures At(MetadataFor(step, previous, workflow), key) ==
            if key == PROTO then None
            else Winning(step.contextMapping.GetOr(NO_MAPPING), previous, workflow, key)
  {
    OverlayAt(map[], workflow, key);
    OverlayAt(Overlay(map[], workflow), step.contextMapping.GetOr(NO_MAPPING).staticMetadata, key);
  }

  method AddEntries(start: Metadata, entries: seq<(string, string)>) returns (m: Metadata)
    ensures m == Overlay(start, entries)
  {
    m := start;
    for i := 0 to |entries|
      invariant m == Overlay(start, entries[..i])
    {
      assert entries[..i + 1][..i] == entries[..i];
      m := Assign(m, entries[i].0, Plain(entries[i].1));
    }
    assert entries[..|entries|] == entries;
  }

  method ComposeMetadata(step: Step, previous: Option<StepResult>, workflow: seq<(string, string)>)
    returns (metadata: Metadata)
    ensures metadata == MetadataFor(step, previous, workflow)
  {
    var mapping := step.contextMapping.GetOr(NO_MAPPING);
    metadata := AddEntries(map[], workflow);
    metadata := AddEntries(metadata, mapping.staticMetadata);
    if previous.Some? {
      metadata := AddPrevious(metadata, mapping, previous.value);
    }
  }

  method AddPrevious(start: Metadata, mapping: Mapping, previous: StepResult) returns (metadata: Metadata)
    ensures metadata == WithPrevious(start, mapping, previous)
  {
    metadata := start;
    if mapping.previousOutputKey != "" {
      metadata := Assign(metadata, mapping.previousOutputKey, SerialisedOutput(previous.output));
    }
    if mapping.previousActionIdKey != "" {
      metadata := Assign(metadata, mapping.previousActionIdKey, Plain(previous.actionId));
    }
    if mapping.previousStatusKey != "" {
      metadata := Assign(metadata, mapping.previousStatusKey, StatusName(previous.status));
    }
  }

  // ----- whole runs

  function Executed(step: Step, s: Situation): StepResult {
    if s.aborted then CancelledResult(step, s) else ToStepResult(step, s)
  }

  datatype SavedWork = SavedWork(workflowId: string, organizationId: string, finalOutput: Output)

  /** A run that has done `n` steps and not stopped at any. */
  predicate Going(results: seq<StepResult>, n: nat) {
    |results| == n && (n == 0 || results[n - 1].status == Completed)
  }

  /** The results after at most `n` steps; a step that does not complete is the last. */
  function Results(definition: Definition, situations: seq<Situation>, n: nat): seq<StepResult>
    requires n <= |definition.steps| == |situations|
  {
    if n == 0 then []
    else
      var before := Results(definition, situations, n - 1);
      if Going(before, n - 1) then before + [Executed(definition.steps[n - 1], situations[n - 1])] else before
  }

  function Previous(results: seq<StepResult>): Option<StepResult> {
    if results == [] then None else Some(results[|results| - 1])
  }

  function ActionFor(step: Step, previous: Option<StepResult>, workflow: seq<(string, string)>, s: Situation): Action {
    Action(s.actionId, step.agentId, step.toolId, step.args, MetadataFor(step, previous, workflow))
  }

  /** The actions sent: one for each step that was begun without being aborted. */
  function Sends(definition: Definition, situations: seq<Situation>, n: nat): seq<Action>
    requires n <= |definition.steps| == |situations|
  {
    if n == 0 then []
    else
      var before := Results(definition, situations, n - 1);
      Sends(definition, situations, n - 1) +
      if Going(before, n - 1) && !situations[n - 1].aborted
      then [ActionFor(definition.steps[n - 1], Previous(before), definition.metadata, situations[n - 1])] else []
  }

  function OverallResult(
      definition: Definition, e: Envelope, status: Status, steps: seq<StepResult>, error: Option<StepError>, finalOutput: Output)
    : WorkflowResult
  {
    WorkflowResult(e.executionId, definition.id, status, steps, if status == Completed then finalOutput else NULL,
                   e.startedAt, e.completedAt, e.completedAt - e.startedAt, error)
  }

  function Conclusion(definition: Definition, e: Envelope, results: seq<StepResult>): WorkflowResult {
    if results == [] then OverallResult(definition, e, Completed, results, None, NULL)
    else
      var last := results[|results| - 1];
      OverallResult(definition, e, last.status, results, last.error, last.output)
  }

  // ----- what a run means

  /** Results for a prefix of `n` steps, each as its situation makes it, all but the last completed. */
  ghost predicate RunOf(definition: Definition, situations: seq<Situation>, n: nat, results: seq<StepResult>)
    requires n <= |situations| == |definition.steps|
  {
    && |results| <= n
    && (forall i :: 0 <= i < |results| ==> results[i] == Executed(definition.steps[i], situations[i]))
    && (forall i :: 0 <= i < |results| - 1 ==> results[i].status == Completed)
    && (|results| < n ==> results != [] && results[|results| - 1].status != Completed)
  }

  lemma {:induction false} ResultsAreARun(definition: Definition, situations: seq<Situation>, n: nat)
    requires n <= |definition.steps| == |situations|
    ensures RunOf(definition, situations, n, Results(definition, situations, n))
    decreases n
  {
    if n > 0 {
      ResultsAreARun(definition, situations, n - 1);
    }
  }

  lemma {:induction false} StoppedForGood(definition: Definition, situations: seq<Situation>, n: nat, m: nat)
    requires n <= m <= |definition.steps| == |situations| && !Going(Results(definition, situations, n), n)
    ensures Results(definition, situations, m) == Results(definition, situations, n)
    ensures Sends(definition, situations, m) == Sends(definition, situations, n)
    decreases m
  {
    ResultsAreARun(definition, situations, n);
    if n < m {
      StoppedForGood(definition, situations, n, m - 1);
    }
  }

  /** The workflow is completed exactly when every step was run and completed; otherwise the last result decides. */
  lemma RunIsSummarised(definition: Definition, e: Envelope, situations: seq<Situation>)
    requires |definition.steps| == |situations|
    ensures var result := Conclusion(definition, e, Results(definition, situations, |situations|));
      var results := result.steps;
      && RunOf(definition, situations, |situations|, results)
      && (result.status == Completed <==>
            |results| == |definition.steps| && forall i :: 0 <= i < |results| ==> results[i].status == Completed)
      && (result.status == Completed <==> result.error == None)
      && (result.status != Completed ==> results != [])
      && (result.status != Completed ==> results[|results| - 1].status == result.status)
      && (result.status != Completed ==> results[|results| - 1].error == result.error)
      && (result.finalOutput != NULL ==> result.status == Completed && results != [])
      && (result.status == Completed && results != [] ==> result.finalOutput == results[|results| - 1].output)
  {
    ResultsAreARun(definition, situations, |situations|);
  }

  /** Every result but that of an aborted step has its action. */
  lemma {:induction false} SendsMatchResults(definition: Definition, situations: seq<Situation>, n: nat)
    requires n <= |definition.steps| == |situations|
    ensures var results, sends := Results(definition, situations, n), Sends(definition, situations, n);
      && |sends| <= |results| <= |sends| + 1 && |results| <= n
      && (Going(results, n) ==> |sends| == n)
      && (|sends| < |results| ==> situations[|sends|].aborted)
    decreases n
  {
    if n > 0 {
      SendsMatchResults(definition, situations, n - 1);
    }
  }

  /** Action `i` carries workflow, static and predecessor metadata, the predecessor being result `i - 1`. */
  lemma {:induction false} SendsThreadResults(definition: Definition, situations: seq<Situation>, n: nat, i: nat)
    requires n <= |definition.steps| == |situations| && i < |Sends(definition, situations, n)|
    ensures i < n && !situations[i].aborted && i < |Results(definition, situations, n)|
    ensures var action, step := Sends(definition, situations, n)[i], definition.steps[i];
      var previous := if i == 0 then None else Some(Results(definition, situations, n)[i - 1]);
      && action.actionId == situations[i].actionId && action.agentId == step.agentId
      && action.toolId == step.toolId && action.args == step.args
      && action.metadata == MetadataFor(step, previous, definition.metadata)
    decreases n
  {
    SendsMatchResults(definition, situations, n - 1);
    var before := Results(definition, situations, n - 1);
    if i < |Sends(definition, situations, n - 1)| {
      SendsThreadResults(definition, situations, n - 1, i);
      assert Results(definition, situations, n)[..i] == before[..i];
    } else {
      assert Results(definition, situations, n)[..i] == before;
    }
  }

  /** A step that does not complete ends the run: nothing later is executed or sent. */
  lemma StopsAt(definition: Definition, situations: seq<Situation>, i: nat)
    requires i < |definition.steps| == |situations|
    requires Going(Results(definition, situations, i), i)
    requires Executed(definition.steps[i], situations[i]).status != Completed
    ensures Results(definition, situations, |situations|) ==
            Results(definition, situations, i) + [Executed(definition.steps[i], situations[i])]
    ensures Sends(definition, situations, |situations|) ==
            Sends(definition, situations, i) +
            if situations[i].aborted then []
            else [ActionFor(definition.steps[i], Previous(Results(definition, situations, i)), definition.metadata, situations[i])]
    ensures forall j :: 0 <= j < i ==> Results(definition, situations, i)[j].status == Completed
  {
    ResultsAreARun(definition, situations, i);
    StoppedForGood(definition, situations, i + 1, |situations|);
  }

  /** A step that completes takes the run one step further. */
  lemma GoesOn(definition: Definition, situations: seq<Situation>, i: nat)
    requires i < |definition.steps| == |situations| && !situations[i].aborted
    requires Going(Results(definition, situations, i), i)
    requires Executed(definition.steps[i], situations[i]).status == Completed
    ensures Results(definition, situations, i + 1) ==
            Results(definition, situations, i) + [Executed(definition.steps[i], situations[i])]
    ensures Sends(definition, situations, i + 1) ==
            Sends(definition, situations, i) +
            [ActionFor(definition.steps[i], Previous(Results(definition, situations, i)), definition.metadata, situations[i])]
  {
  }

  lemma CompletedHasNoError(definition: Definition, e: Envelope, situations: seq<Situation>)
    requires |definition.steps| == |situations|
    requires Going(Results(definition, situations, |situations|), |situations|)
    ensures Conclusion(definition, e, Results(definition, situations, |situations|)).status == Completed
    ensures Conclusion(definition, e, Results(definition, situations, |situations|)).error == None
  {
    ResultsAreARun(definition, situations, |situations|);
  }

  // ----- what a run comes to, told by what the port answered

  /** The step was begun and the port answered with a success. */
  predicate GoesWell(s: Situation) {
    !s.aborted && s.outcome.Succeeds?
  }

  /** The error of a step whose port reported one, or else the executor's own. */
  predicate Reports(error: Option<StepError>, reported: Option<PortError>, code: Code, message: Message) {
    && error.Some? && error.value.phase == Execution
    && (reported.Some? ==> error.value.code == Reported(reported.value.code) && error.value.message == Told(reported.value.message))
    && (reported.None? ==> error.value.code == code && error.value.message == message)
  }

  /** What the result of a step says, case by case of what happened at it. */
  predicate Answers(step: Step, s: Situation, r: StepResult) {
    && r.stepId == step.id && r.agentId == step.agentId && r.toolId == step.toolId
    && r.startedAt == s.startedAt && r.completedAt == s.completedAt
    && (GoesWell(s) <==> r.status == Completed) && (GoesWell(s) <==> r.error == None)
    && (!GoesWell(s) ==> r.output == NULL)
    && if s.aborted then
         r.status == Cancelled && r.actionId == s.actionId && r.durationMs == 0
         && r.error == Some(StepError(ExecutionCancelled, RunCancelled, Execution))
       else
         && r.durationMs == s.completedAt - s.startedAt
         && match s.outcome
            case Throws(message) =>
              r.status == Failed && r.actionId == s.actionId && r.error == Some(StepError(BridgeFailed, Told(message), Bridge))
            case Rejected(id, code, reason) =>
              r.status == Failed && r.actionId == id && r.error == Some(StepError(Reported(code), Told(reason), Bridge))
            case Fails(id, error) =>
              r.status == Failed && r.actionId == id && Reports(r.error, error, ExecutionFailed, StepFailed)
            case IsCancelled(id, error) =>
              r.status == Cancelled && r.actionId == id && Reports(r.error, error, ExecutionCancelled, StepCancelled)
            case Succeeds(id, output) => r.actionId == id && r.output == output
  }

  /** The output of the last step, if there is one and it went well. */
  function LastOutput(situations: seq<Situation>): Output {
    if situations == [] || !situations[|situations| - 1].outcome.Succeeds? then NULL
    else situations[|situations| - 1].outcome.output
  }

  predicate AllGoWell(situations: seq<Situation>) {
    forall i :: 0 <= i < |situations| ==> GoesWell(situations[i])
  }

  /** The results up to the first step that does not go well, and the whole result they come to. */
  predicate Concludes(definition: Definition, e: Envelope, situations: seq<Situation>, r: WorkflowResult)
    requires |situations| == |definition.steps|
  {
    var n := |r.steps|;
    && n <= |situations|
    && (forall i :: 0 <= i < n ==> Answers(definition.steps[i], situations[i], r.steps[i]))
    && (forall i :: 0 <= i < n - 1 ==> GoesWell(situations[i]))
    && (n < |situations| ==> n > 0 && !GoesWell(situations[n - 1]))
    && r.executionId == e.executionId && r.workflowId == definition.id
    && r.startedAt == e.startedAt && r.completedAt == e.completedAt && r.durationMs == e.completedAt - e.startedAt
    && (r.status == Completed <==> AllGoWell(situations))
    && (AllGoWell(situations) ==> n == |situations| && r.error == None && r.finalOutput == LastOutput(situations))
    && (!AllGoWell(situations) ==> n > 0 && r.finalOutput == NULL)
    && (!AllGoWell(situations) ==>
          var s := situations[n - 1];
          && (s.aborted || s.outcome.IsCancelled? <==> r.status == Cancelled)
          && r.error == r.steps[n - 1].error)
  }

  lemma ExecutedAnswers(step: Step, s: Situation)
    ensures Answers(step, s, Executed(step, s))
  {
  }

  /** Every run concludes so. */
  lemma RunConcludes(definition: Definition, e: Envelope, situations: seq<Situation>)
    requires |situations| == |definition.steps|
    ensures Concludes(definition, e, situations, Conclusion(definition, e, Results(definition, situations, |situations|)))
  {
    var results := Results(definition, situations, |situations|);
    ResultsAreARun(definition, situations, |situations|);
    forall i | 0 <= i < |results| ensures Answers(definition.steps[i], situations[i], results[i]) {
      ExecutedAnswers(definition.steps[i], situations[i]);
    }
    RunOfAnswers(definition, e, situations, results);
  }

  lemma RunOfAnswers(definition: Definition, e: Envelope, situations: seq<Situation>, results: seq<StepResult>)
    requires |situations| == |definition.steps| && RunOf(definition, situations, |situations|, results)
    requires forall i :: 0 <= i < |results| ==> Answers(definition.steps[i], situations[i], results[i])
    ensures Concludes(definition, e, situations, Conclusion(definition, e, results))
  {
    forall i | 0 <= i < |results| ensures GoesWell(situations[i]) <==> results[i].status == Completed {
    }
    var n := |results|;
    if n > 0 && results[n - 1].status != Completed {
      assert !GoesWell(situations[n - 1]);
    }
  }

  // ----- times

  /** A clock that is read in the order of the code and never goes back. */
  ghost predicate Monotone(e: Envelope, situations: seq<Situation>, n: nat)
    requires n <= |situations|
  {
    && (forall i :: 0 <= i < n ==> e.startedAt <= situations[i].startedAt <= situations[i].completedAt <= e.completedAt)
    && (forall i, j :: 0 <= i < j < n ==> situations[i].completedAt <= situations[j].startedAt)
  }

  function TotalDuration(results: seq<StepResult>): int {
    if results == [] then 0 else TotalDuration(results[..|results| - 1]) + results[|results| - 1].durationMs
  }

  lemma {:induction false} DurationsAddUp(e: Envelope, situations: seq<Situation>, results: seq<StepResult>)
    requires |results| <= |situations| && Monotone(e, situations, |results|)
    requires forall i :: 0 <= i < |results| ==>
               0 <= results[i].durationMs <= situations[i].completedAt - situations[i].startedAt
    ensures 0 <= TotalDuration(results)
    ensures results == [] ==> TotalDuration(results) == 0
    ensures results != [] ==> TotalDuration(results) <= situations[|results| - 1].completedAt - e.startedAt
    decreases |results|
  {
    if results != [] {
      DurationsAddUp(e, situations, results[..|results| - 1]);
    }
  }

  /** With such a clock no duration is negative, and the steps together take no longer than the run. */
  lemma StepsFitInTheRun(definition: Definition, e: Envelope, situations: seq<Situation>)
    requires |definition.steps| == |situations| && Monotone(e, situations, |situations|) && e.startedAt <= e.completedAt
    ensures var result := Conclusion(definition, e, Results(definition, situations, |situations|));
      && 0 <= TotalDuration(result.steps) <= result.durationMs
      && forall i :: 0 <= i < |result.steps| ==> 0 <= result.steps[i].durationMs
  {
    ResultsAreARun(definition, situations, |situations|);
    DurationsAddUp(e, situations, Results(definition, situations, |situations|));
  }

  class WorkflowExecution {
    /** Whether a repository is wired, and the organization's id ("" when absent). */
    const repositoryWired: bool
    const organizationId: string
    var saved: seq<SavedWork>
    /** The actions the port was called with, in order. */
    var sent: seq<Action>

    constructor (repositoryWired: bool, organizationId: string)
      ensures this.repositoryWired == repositoryWired && this.organizationId == organizationId
      ensures saved == [] && sent == []
    {
      this.repositoryWired, this.organizationId := repositoryWired, organizationId;
      saved, sent := [], [];
    }

    predicate Wired() {
      repositoryWired && organizationId != ""
    }

    /** `saved` are the calls of the repository; None stands for a run that rejects because its save threw. */
    method Run(definition: Definition, e: Envelope, situations: seq<Situation>, saveThrows: bool)
      returns (result: Option<WorkflowResult>)
      requires |situations| == |definition.steps|
      modifies this
      ensures var conclusion := Conclusion(definition, e, Results(definition, situations, |situations|));
        var saves := conclusion.status == Completed && Wired();
        && result == (if saves && saveThrows then None else Some(conclusion))
        && saved == old(saved) + (if saves then [SavedWork(definition.id, organizationId, conclusion.finalOutput)] else [])
      ensures result.Some? ==> Concludes(definition, e, situations, result.value)
      ensures result.None? <==> saveThrows && AllGoWell(situations) && repositoryWired && organizationId != ""
      ensures saved == old(saved) + if AllGoWell(situations) && repositoryWired && organizationId != ""
                                    then [SavedWork(definition.id, organizationId, LastOutput(situations))] else []
      ensures sent == old(sent) + Sends(definition, situations, |situations|)
    {
      var status, steps, error, output := RunSteps(definition, e, situations);
      result := Finish(definition, e, status, steps, error, output, saveThrows);
      RunConcludes(definition, e, situations);
    }

    /** The loop of `run`: what each of its exits hands to `Finish`. */
    method RunSteps(definition: Definition, ghost e: Envelope, situations: seq<Situation>)
      returns (status: Status, steps: seq<StepResult>, error: Option<StepError>, output: Output)
      requires |situations| == |definition.steps|
      modifies this`sent
      ensures steps == Results(definition, situations, |situations|)
      ensures var conclusion := Conclusion(definition, e, steps);
        && conclusion.status == status && conclusion.error == error
        && conclusion.finalOutput == if status == Completed then output else NULL
      ensures sent == old(sent) + Sends(definition, situations, |situations|)
    {
      steps := [];
      var previous: Option<StepResult> := None;
      for i := 0 to |definition.steps|
        invariant steps == Results(definition, situations, i) && Going(steps, i)
        invariant previous == Previous(steps)
        invariant sent == old(sent) + Sends(definition, situations, i)
      {
        var step := definition.steps[i];
        if situations[i].aborted {
          StopsAt(definition, situations, i);
          steps := steps + [CancelledResult(step, situations[i])];
          return Cancelled, steps, Some(CANCELLED_ERROR), if previous.Some? then previous.value.output else NULL;
        }
        var stepResult := ExecuteStep(step, previous, definition, situations[i]);
        if stepResult.status == Failed || stepResult.status == Cancelled {
          StopsAt(definition, situations, i);
          steps := steps + [stepResult];
          status, error := FirstFailure(steps, i);
          return status, steps, error, steps[0].output;
        }
        GoesOn(definition, situations, i);
        steps := steps + [stepResult];
        previous := Some(stepResult);
      }
      CompletedHasNoError(definition, e, situations);
      return Completed, steps, None, if previous.Some? then previous.value.output else NULL;
    }

    method ExecuteStep(step: Step, previous: Option<StepResult>, definition: Definition, s: Situation)
      returns (result: StepResult)
      modifies this`sent
      ensures sent == old(sent) + [ActionFor(step, previous, definition.metadata, s)]
      ensures result == ToStepResult(step, s)
    {
      var metadata := ComposeMetadata(step, previous, definition.metadata);
      sent := sent + [Action(s.actionId, step.agentId, step.toolId, step.args, metadata)];
      result := ToStepResult(step, s);
    }

    /** The status and error of the first result that failed or was cancelled. */
    method FirstFailure(steps: seq<StepResult>, ghost n: nat) returns (status: Status, error: Option<StepError>)
      requires n < |steps| && steps[n].status != Completed && forall j :: 0 <= j < n ==> steps[j].status == Completed
      ensures status == steps[n].status && error == steps[n].error
    {
      var k := 0;
      while steps[k].status == Completed
        invariant k <= n
        decreases n - k
      {
        k := k + 1;
      }
      status := if steps[k].status == Cancelled then Cancelled else Failed;
      error := steps[k].error;
    }

    method Finish(
        definition: Definition, e: Envelope, status: Status, steps: seq<StepResult>, error: Option<StepError>,
        finalOutput: Output, saveThrows: bool)
      returns (outcome: Option<WorkflowResult>)
      modifies this`saved
      ensures var result := OverallResult(definition, e, status, steps, error, finalOutput);
        var saves := status == Completed && Wired();
        && outcome == (if saves && saveThrows then None else Some(result))
        && saved == old(saved) + (if saves then [SavedWork(definition.id, organizationId, result.finalOutput)] else [])
    {
      var result := OverallResult(definition, e, status, steps, error, finalOutput);
      if result.status == Completed && repositoryWired && organizationId != "" {
        saved := saved + [SavedWork(definition.id, organizationId, result.finalOutput)];
        if saveThrows {
          return None;
        }
      }
      return Some(result);
    }
  }
}
