/**
  Durable department work: the in-memory store, the recovery of expired tasks and
  the pure timeout check beside it, and the executor that closes every task it opens.
 */
module DepartmentWork {
  import opened Wrappers

  datatype Status = Queued | Running | WaitingApproval | Completed | Failed | Cancelled

  datatype Capability = ContactsList | ContactsSummary | SegmentsList | CampaignsList | Other(name: string)

  const MAX_ACTIVE_DASHBOARDS := 5
  const DASHBOARD_RESULT_CAPABILITIES := {ContactsList, ContactsSummary, SegmentsList, CampaignsList}

  /** The fixed texts that are stored with tasks, and the provider's own. */
  datatype Message = Progress | ExpiredInRestart | Overdue | DashboardsFull | NotAvailable | NoCredentials | Given(text: string)

  /** A timestamp text as `Date` reads it: milliseconds, or None when it cannot be parsed. */
  type Stamp = Option<int>

  datatype Task = Task(
    id: string,
    organizationId: string,
    capability: Capability,
    status: Status,
    statusMessage: Message,
    createdAt: Stamp,
    startedAt: Option<Stamp>,
    completedAt: Option<Stamp>,
    resultId: Option<string>,
    errorCode: Option<string>,
    errorMessage: Option<Message>,
    timeoutMs: int)

  datatype WorkResult = WorkResult(
    id: string,
    organizationId: string,
    relatedWorkItemId: string,
    producedByCapability: Capability,
    charted: bool)

  /** The fields an update names; the others stay. */
  datatype TaskPatch = TaskPatch(
    organizationId: Option<string>,
    capability: Option<Capability>,
    createdAt: Option<Stamp>,
    status: Option<Status>,
    statusMessage: Option<Message>,
    startedAt: Option<Option<Stamp>>,
    completedAt: Option<Option<Stamp>>,
    resultId: Option<Option<string>>,
    errorCode: Option<Option<string>>,
    errorMessage: Option<Option<Message>>,
    timeoutMs: Option<int>)

  /** The fields every closing patch names. */
  const CLOSING: TaskPatch := TaskPatch(None, None, None, Some(Completed), Some(Progress), None, None, None, None, None, None)

  /** `{ ...existing, ...patch }`. */
  function Patched(task: Task, patch: TaskPatch): Task {
    task.(
      organizationId := patch.organizationId.GetOr(task.organizationId),
      capability := patch.capability.GetOr(task.capability),
      createdAt := patch.createdAt.GetOr(task.createdAt),
      status := patch.status.GetOr(task.status),
      statusMessage := patch.statusMessage.GetOr(task.statusMessage),
      startedAt := patch.startedAt.GetOr(task.startedAt),
      completedAt := patch.completedAt.GetOr(task.completedAt),
      resultId := patch.resultId.GetOr(task.resultId),
      errorCode := patch.errorCode.GetOr(task.errorCode),
      errorMessage := patch.errorMessage.GetOr(task.errorMessage),
      timeoutMs := patch.timeoutMs.GetOr(task.timeoutMs))
  }

  /** A field named by the patch takes its value, every other one stays, and the id is never patched. */
  lemma {:induction false} PatchOverlays(task: Task, patch: TaskPatch)
    ensures var after := Patched(task, patch);
      && after.id == task.id
      && after.organizationId == (if patch.organizationId.Some? then patch.organizationId.value else task.organizationId)
      && after.capability == (if patch.capability.Some? then patch.capability.value else task.capability)
      && after.createdAt == (if patch.createdAt.Some? then patch.createdAt.value else task.createdAt)
      && after.status == (if patch.status.Some? then patch.status.value else task.status)
      && after.statusMessage == (if patch.statusMessage.Some? then patch.statusMessage.value else task.statusMessage)
      && after.startedAt == (if patch.startedAt.Some? then patch.startedAt.value else task.startedAt)
      && after.completedAt == (if patch.completedAt.Some? then patch.completedAt.value else task.completedAt)
      && after.resultId == (if patch.resultId.Some? then patch.resultId.value else task.resultId)
      && after.errorCode == (if patch.errorCode.Some? then patch.errorCode.value else task.errorCode)
      && after.errorMessage == (if patch.errorMessage.Some? then patch.errorMessage.value else task.errorMessage)
      && after.timeoutMs == (if patch.timeoutMs.Some? then patch.timeoutMs.value else task.timeoutMs)
  {
  }

  predicate Active(task: Task) {
    task.status == Running || task.status == Queued
  }

  /** `new Date(task.startedAt ?? task.createdAt)`. */
  function Start(task: Task): Stamp {
    if task.startedAt.Some? then task.startedAt.value else task.createdAt
  }

  // ----- the pure check

  datatype Verdict = Expired | Ok

  datatype TimeoutCheck = TimeoutCheck(taskId: string, verdict: Verdict, statusMessage: Message, elapsedMs: Option<int>)

  function CheckOf(task: Task, now: int): (checks: seq<TimeoutCheck>)
    ensures |checks| == if Active(task) then 1 else 0
  {
    if !Active(task) then []
    else if Start(task).Some? && now - Start(task).value > task.timeoutMs then
      [TimeoutCheck(task.id, Expired, Overdue, Some(now - Start(task).value))]
    else
      [TimeoutCheck(task.id, Ok, task.statusMessage, if Start(task).Some? then Some(now - Start(task).value) else None)]
  }

  function CheckTaskTimeouts(tasks: seq<Task>, now: int): seq<TimeoutCheck> {
    if tasks == [] then [] else CheckOf(tasks[0], now) + CheckTaskTimeouts(tasks[1..], now)
  }

  // ----- what recovery does to one task

  /** The `continue` of the recovery loop compares with `<=`, which is false of an unreadable date. */
  predicate Recoverable(task: Task, now: int) {
    Active(task) && !(Start(task).Some? && now - Start(task).value <= task.timeoutMs)
  }

  function Recovered(task: Task, now: int): Task {
    if Recoverable(task, now) then
      task.(status := Failed, statusMessage := ExpiredInRestart, completedAt := Some(Some(now)),
            errorCode := Some("TASK_TIMEOUT"), errorMessage := Some(ExpiredInRestart))
    else task
  }

  function RecoveredAll(tasks: seq<Task>, now: int): seq<Task> {
    seq(|tasks|, i requires 0 <= i < |tasks| => Recovered(tasks[i], now))
  }

  function CountRecoverable(tasks: seq<Task>, now: int): nat {
    if tasks == [] then 0
    else CountRecoverable(tasks[..|tasks| - 1], now) + if Recoverable(tasks[|tasks| - 1], now) then 1 else 0
  }

  function CountExpired(checks: seq<TimeoutCheck>): nat {
    if checks == [] then 0 else CountExpired(checks[1..]) + if checks[0].verdict.Expired? then 1 else 0
  }

  predicate Undated(task: Task) {
    Active(task) && Start(task).None?
  }

  function CountUndated(tasks: seq<Task>): nat {
    if tasks == [] then 0 else CountUndated(tasks[1..]) + if Undated(tasks[0]) then 1 else 0
  }

  predicate ReportedExpired(checks: seq<TimeoutCheck>, id: string) {
    exists k :: 0 <= k < |checks| && checks[k].taskId == id && checks[k].verdict.Expired?
  }

  predicate DistinctIds(tasks: seq<Task>) {
    forall i, j :: 0 <= i < j < |tasks| ==> tasks[i].id != tasks[j].id
  }

  // ----- both, field by field

  /** The task is queued or running and its time, counted from its start or else from its creation, is over. */
  ghost predicate TimeIsOver(task: Task, now: int) {
    && (task.status == Queued || task.status == Running)
    && (match task.startedAt
        case Some(Some(started)) => now > started + task.timeoutMs
        case Some(None) => false
        case None => task.createdAt.Some? && now > task.createdAt.value + task.timeoutMs)
  }

  /** The task is queued or running and the date to count from cannot be read. */
  ghost predicate DateUnreadable(task: Task) {
    && (task.status == Queued || task.status == Running)
    && (task.startedAt == Some(None) || (task.startedAt == None && task.createdAt == None))
  }

  /** What the recovery leaves of a task: it fails with a timeout, or nothing changes. */
  lemma {:induction false} RecoveredIff(task: Task, now: int)
    ensures var after := Recovered(task, now);
      if TimeIsOver(task, now) || DateUnreadable(task) then
        && after.status == Failed
        && after.completedAt == Some(Some(now))
        && after.errorCode == Some("TASK_TIMEOUT")
        && after.errorMessage == Some(ExpiredInRestart) && after.statusMessage == ExpiredInRestart
        && after.(status := task.status, statusMessage := task.statusMessage, completedAt := task.completedAt,
                  errorCode := task.errorCode, errorMessage := task.errorMessage) == task
      else after == task
    ensures Undated(task) <==> DateUnreadable(task)
  {
  }

  /** The check of one task. */
  lemma {:induction false} CheckIs(task: Task, now: int)
    ensures var checks := CheckTaskTimeouts([task], now);
      if task.status != Queued && task.status != Running then checks == []
      else
        && |checks| == 1
        && checks[0].taskId == task.id
        && (checks[0].verdict == Expired <==> TimeIsOver(task, now))
        && checks[0].statusMessage == (if TimeIsOver(task, now) then Overdue else task.statusMessage)
        && checks[0].elapsedMs == (match task.startedAt
                                   case Some(Some(started)) => Some(now - started)
                                   case Some(None) => None
                                   case None => if task.createdAt.Some? then Some(now - task.createdAt.value) else None)
  {
    assert CheckTaskTimeouts([task][1..], now) == [];
  }

  lemma Associative(a: seq<TimeoutCheck>, b: seq<TimeoutCheck>, c: seq<TimeoutCheck>)
    ensures a + (b + c) == a + b + c
  {
  }

  /** Every task is checked on its own, and the checks keep the order of the tasks. */
  lemma {:induction false} ChecksAreInOrder(tasks: seq<Task>, more: seq<Task>, now: int)
    ensures CheckTaskTimeouts(tasks + more, now) == CheckTaskTimeouts(tasks, now) + CheckTaskTimeouts(more, now)
    decreases |tasks|
  {
    if tasks == [] {
      assert tasks + more == more;
    } else {
      ChecksAreInOrder(tasks[1..], more, now);
      assert (tasks + more)[1..] == tasks[1..] + more && (tasks + more)[0] == tasks[0];
      Associative(CheckOf(tasks[0], now), CheckTaskTimeouts(tasks[1..], now), CheckTaskTimeouts(more, now));
    }
  }

  // ----- recovery and check compared

  lemma ReportedFirst(tasks: seq<Task>, now: int, id: string)
    requires tasks != []
    ensures ReportedExpired(CheckTaskTimeouts(tasks, now), id) <==>
            (tasks[0].id == id && Recoverable(tasks[0], now) && !Undated(tasks[0])) ||
            ReportedExpired(CheckTaskTimeouts(tasks[1..], now), id)
  {
    var checks, more := CheckTaskTimeouts(tasks, now), CheckTaskTimeouts(tasks[1..], now);
    var offset := |checks| - |more|;
    if ReportedExpired(more, id) {
      var k :| 0 <= k < |more| && more[k].taskId == id && more[k].verdict.Expired?;
      assert checks[offset + k] == more[k];
    }
    if ReportedExpired(checks, id) {
      var k :| 0 <= k < |checks| && checks[k].taskId == id && checks[k].verdict.Expired?;
      assert k >= offset ==> checks[k] == more[k - offset];
    }
    if Recoverable(tasks[0], now) && !Undated(tasks[0]) {
      assert checks[0].taskId == tasks[0].id && checks[0].verdict.Expired?;
    }
  }

  /** The check reports exactly the ids of recoverable tasks whose date can be read. */
  lemma {:induction false} ReportedIffExpired(tasks: seq<Task>, now: int, id: string)
    ensures ReportedExpired(CheckTaskTimeouts(tasks, now), id) <==>
            exists i :: 0 <= i < |tasks| && tasks[i].id == id && Recoverable(tasks[i], now) && !Undated(tasks[i])
    decreases |tasks|
  {
    if tasks != [] {
      ReportedFirst(tasks, now, id);
      ReportedIffExpired(tasks[1..], now, id);
      assert forall i :: 0 <= i < |tasks[1..]| ==> tasks[1..][i] == tasks[i + 1];
      assert forall i :: 0 < i < |tasks| ==> tasks[1..][i - 1] == tasks[i];
    }
  }

  /** Recovery fails exactly the tasks the check reports if and only if every active task has a readable date. */
  lemma RecoveryAgreesIffDated(tasks: seq<Task>, now: int)
    requires DistinctIds(tasks)
    ensures (forall i :: 0 <= i < |tasks| ==>
               (Recovered(tasks[i], now) != tasks[i] <==> ReportedExpired(CheckTaskTimeouts(tasks, now), tasks[i].id)))
            <==> (forall i :: 0 <= i < |tasks| ==> !Undated(tasks[i]))
  {
    forall i | 0 <= i < |tasks|
      ensures (Recovered(tasks[i], now) != tasks[i] <==> ReportedExpired(CheckTaskTimeouts(tasks, now), tasks[i].id))
              <==> !Undated(tasks[i])
    {
      ReportedIffExpired(tasks, now, tasks[i].id);
      assert forall j :: 0 <= j < |tasks| && tasks[j].id == tasks[i].id ==> j == i;
    }
  }

  /** The number recovered is the number reported as expired, plus the active tasks without a readable date. */
  lemma {:induction false} RecoveredCount(tasks: seq<Task>, now: int)
    ensures CountRecoverable(tasks, now) == CountExpired(CheckTaskTimeouts(tasks, now)) + CountUndated(tasks)
    decreases |tasks|
  {
    if tasks != [] {
      RecoveredCount(tasks[1..], now);
      CountFromTheFront(tasks, now);
      var more := CheckTaskTimeouts(tasks[1..], now);
      if Active(tasks[0]) {
        assert CheckTaskTimeouts(tasks, now)[1..] == more;
      } else {
        assert CheckTaskTimeouts(tasks, now) == more;
      }
    }
  }

  lemma {:induction false} CountFromTheFront(tasks: seq<Task>, now: int)
    requires tasks != []
    ensures CountRecoverable(tasks, now) ==
            CountRecoverable(tasks[1..], now) + if Recoverable(tasks[0], now) then 1 else 0
    decreases |tasks|
  {
    var n := |tasks| - 1;
    if n > 0 {
      CountFromTheFront(tasks[..n], now);
      assert tasks[..n][1..] == tasks[1..][..n - 1] && tasks[1..][n - 1] == tasks[n];
    }
  }

  /** After a recovery the check reports nothing as expired, and a second recovery finds nothing. */
  lemma {:induction false} SecondRecoveryIsIdle(tasks: seq<Task>, now: int)
    ensures CountExpired(CheckTaskTimeouts(RecoveredAll(tasks, now), now)) == 0
    ensures CountRecoverable(RecoveredAll(tasks, now), now) == 0
    ensures RecoveredAll(RecoveredAll(tasks, now), now) == RecoveredAll(tasks, now)
    decreases |tasks|
  {
    var once := RecoveredAll(tasks, now);
    NoneRecoverable(once, now);
    RecoveredCount(once, now);
  }

  lemma {:induction false} NoneRecoverable(tasks: seq<Task>, now: int)
    requires forall i :: 0 <= i < |tasks| ==> !Recoverable(tasks[i], now)
    ensures CountRecoverable(tasks, now) == 0
    decreases |tasks|
  {
    if tasks != [] {
      NoneRecoverable(tasks[..|tasks| - 1], now);
    }
  }

  /** An active task with an unreadable date: recovered, but reported as in order. */
  lemma UndatedTaskIsRecoveredUnreported(task: Task, now: int)
    requires task.status == Running && task.startedAt == Some(None)
    ensures Recovered(task, now).status == Failed
    ensures !ReportedExpired(CheckTaskTimeouts([task], now), task.id)
  {
    ReportedIffExpired([task], now, task.id);
  }

  // ----- the store

  function CountDashboards(results: seq<WorkResult>, organizationId: string): nat {
    if results == [] then 0
    else
      var last := results[|results| - 1];
      CountDashboards(results[..|results| - 1], organizationId) +
      if last.organizationId == organizationId && last.charted then 1 else 0
  }

  lemma OneMoreResult(results: seq<WorkResult>, result: WorkResult, organizationId: string)
    ensures CountDashboards(results + [result], organizationId) ==
            CountDashboards(results, organizationId) +
            if result.organizationId == organizationId && result.charted then 1 else 0
  {
    assert (results + [result])[..|results|] == results;
  }

  predicate Unused(tasks: seq<Task>, id: string) {
    forall i :: 0 <= i < |tasks| ==> tasks[i].id != id
  }

  lemma RecoveryKeepsIds(tasks: seq<Task>, now: int)
    requires DistinctIds(tasks)
    ensures DistinctIds(RecoveredAll(tasks, now))
  {
  }

  /** The tasks in the middle of a recovery: the first `i` are done. */
  function Midway(tasks: seq<Task>, i: nat, now: int): seq<Task>
    requires i <= |tasks|
  {
    RecoveredAll(tasks[..i], now) + tasks[i..]
  }

  lemma RecoverNext(tasks: seq<Task>, i: nat, now: int)
    requires i < |tasks|
    ensures |Midway(tasks, i, now)| == |tasks| && Midway(tasks, i, now)[i] == tasks[i]
    ensures Midway(tasks, i, now)[i := Recovered(tasks[i], now)] == Midway(tasks, i + 1, now)
    ensures !Recoverable(tasks[i], now) ==> Midway(tasks, i, now) == Midway(tasks, i + 1, now)
    ensures CountRecoverable(tasks[..i + 1], now) ==
            CountRecoverable(tasks[..i], now) + if Recoverable(tasks[i], now) then 1 else 0
  {
    assert tasks[..i + 1][..i] == tasks[..i];
    assert Midway(tasks, i, now)[i := tasks[i]] == Midway(tasks, i, now);
  }

  lemma MidwayEnds(tasks: seq<Task>, now: int)
    ensures Midway(tasks, 0, now) == tasks && Midway(tasks, |tasks|, now) == RecoveredAll(tasks, now)
  {
    assert tasks[..|tasks|] == tasks;
  }

  class InMemoryDepartmentWorkStore {
    /** The entries of the task map in insertion order, which is how a JavaScript Map iterates and keeps them. */
    var tasks: seq<Task>
    var results: seq<WorkResult>

    predicate Valid()
      reads this
    {
      DistinctIds(tasks)
    }

    constructor ()
      ensures Valid() && tasks == [] && results == []
    {
      tasks, results := [], [];
    }

    method CreateTask(task: Task)
      requires Valid() && Unused(tasks, task.id)
      modifies this`tasks
      ensures Valid() && tasks == old(tasks) + [task]
    {
      tasks := tasks + [task];
    }

    /** Patches the task with that id in its place; None (an exception in the original) when there is none. */
    method UpdateTask(id: string, patch: TaskPatch) returns (updated: Option<Task>)
      requires Valid()
      modifies this`tasks
      ensures Valid() && (updated.None? <==> Unused(old(tasks), id))
      ensures updated.None? ==> tasks == old(tasks)
      ensures forall i :: 0 <= i < |old(tasks)| && old(tasks)[i].id == id ==>
                updated == Some(Patched(old(tasks)[i], patch)) && tasks == old(tasks)[i := updated.value]
    {
      for i := 0 to |tasks|
        invariant Valid() && tasks == old(tasks) && Unused(tasks[..i], id)
      {
        if tasks[i].id == id {
          updated := Some(Patched(tasks[i], patch));
          tasks := tasks[i := updated.value];
          return;
        }
      }
      return None;
    }

    method CreateResult(result: WorkResult)
      modifies this`results
      ensures results == old(results) + [result]
    {
      results := results + [result];
    }

    method CountDashboardsForOrg(organizationId: string) returns (count: nat)
      ensures count == CountDashboards(results, organizationId)
    {
      count := 0;
      for i := 0 to |results|
        invariant count == CountDashboards(results[..i], organizationId)
      {
        assert results[..i + 1] == results[..i] + [results[i]];
        OneMoreResult(results[..i], results[i], organizationId);
        if results[i].organizationId == organizationId && results[i].charted {
          count := count + 1;
        }
      }
      assert results[..|results|] == results;
    }

    method RecoverExpiredTasks(now: int) returns (recovered: nat)
      requires Valid()
      modifies this`tasks
      ensures Valid() && tasks == RecoveredAll(old(tasks), now)
      ensures recovered == CountRecoverable(old(tasks), now)
    {
      ghost var before := tasks;
      MidwayEnds(before, now);
      recovered := 0;
      for i := 0 to |tasks|
        invariant |tasks| == |before| && tasks == Midway(before, i, now)
        invariant recovered == CountRecoverable(before[..i], now)
      {
        RecoverNext(before, i, now);
        var task := tasks[i];
        if task.status != Running && task.status != Queued {
          continue;
        }
        var start := if task.startedAt.Some? then task.startedAt.value else task.createdAt;
        if start.Some? && now - start.value <= task.timeoutMs {
          continue;
        }
        tasks := tasks[i := task.(status := Failed, statusMessage := ExpiredInRestart,
                                  completedAt := Some(Some(now)), errorCode := Some("TASK_TIMEOUT"),
                                  errorMessage := Some(ExpiredInRestart))];
        recovered := recovered + 1;
      }
      assert before[..|before|] == before;
      assert Valid() by {
        RecoveryKeepsIds(before, now);
      }
    }
  }

  // ----- the executor, one run at a time

  /**
    What the surroundings answer during a run.  `reporting` are the activity and message
    ports after a success, `failureReporting` the same ports after a failure.
   */
  datatype Surroundings = Surroundings(
    available: bool,
    credentials: bool,
    mautic: bool,
    provider: Answer,
    reporting: Answer,
    failureReporting: bool)

  /** A port returns, or throws; the code is that of a work error, and "unavailable" otherwise. */
  datatype Answer = Done | Error(code: string, message: string)

  /** The executor table: every entry builds a result with a chart. */
  predicate HasExecutor(capability: Capability) {
    capability in {ContactsSummary, ContactsList, SegmentsList, CampaignsList}
  }

  datatype WorkInput = WorkInput(organizationId: string, capability: Capability)

  /** Why a run ends before its executor, in the order in which the code looks. */
  function Refusal(input: WorkInput, s: Surroundings, dashboards: nat): Option<string> {
    if input.capability in DASHBOARD_RESULT_CAPABILITIES && dashboards >= MAX_ACTIVE_DASHBOARDS then Some("dashboard_limit")
    else if !s.available then Some("unavailable")
    else if !s.credentials then Some("missing")
    else None
  }

  /** Why nothing is built. */
  function BuildFailure(input: WorkInput, s: Surroundings): Option<string> {
    if !HasExecutor(input.capability) then Some("unavailable")
    else if !s.mautic then Some("missing_credentials")
    else if s.provider.Error? then Some(s.provider.code)
    else None
  }

  /** How a run ends: its error code, and whether its result was stored. */
  datatype Ending = Ending(code: Option<string>, stored: bool)

  function ExecutionEnding(input: WorkInput, s: Surroundings): Ending {
    if BuildFailure(input, s).Some? then Ending(BuildFailure(input, s), false)
    else Ending(if s.reporting.Error? then Some(s.reporting.code) else None, true)
  }

  function RunEnding(input: WorkInput, s: Surroundings, dashboards: nat): Ending {
    var refusal := Refusal(input, s, dashboards);
    if refusal.Some? then Ending(refusal, false) else ExecutionEnding(input, s)
  }

  /** The first obstacle gives the code of the run; a result is stored when there is none before its report. */
  lemma {:induction false} FirstObstacleDecides(input: WorkInput, s: Surroundings, dashboards: nat)
    ensures var e := RunEnding(input, s, dashboards);
      var full := !input.capability.Other? && dashboards >= 5;
      var ready := !full && s.available && s.credentials;
      var built := ready && !input.capability.Other? && s.mautic && s.provider == Done;
      && (full ==> e.code == Some("dashboard_limit"))
      && (!full && !s.available ==> e.code == Some("unavailable"))
      && (!full && s.available && !s.credentials ==> e.code == Some("missing"))
      && (ready && input.capability.Other? ==> e.code == Some("unavailable"))
      && (ready && !input.capability.Other? && !s.mautic ==> e.code == Some("missing_credentials"))
      && (ready && !input.capability.Other? && s.mautic && s.provider.Error? ==> e.code == Some(s.provider.code))
      && (built && s.reporting.Error? ==> e.code == Some(s.reporting.code))
      && (e.code.None? <==> built && s.reporting == Done)
      && (e.stored <==> built)
  {
  }

  /** The task is failed iff there is an error code, and names the one charted result added iff it was stored. */
  predicate Closes(task: Task, e: Ending, input: WorkInput, resultId: string, before: seq<WorkResult>, after: seq<WorkResult>)
  {
    && task.errorCode == e.code && task.status == (if e.code.Some? then Failed else Completed)
    && task.resultId == (if e.stored then Some(resultId) else None)
    && after == before + if e.stored then [WorkResult(resultId, input.organizationId, task.id, input.capability, true)] else []
  }

  /** One run at a time keeps every organization within the limit, and never touches another organization's count. */
  lemma RunKeepsTheLimit(task: Task, input: WorkInput, s: Surroundings, resultId: string,
                         before: seq<WorkResult>, after: seq<WorkResult>, organizationId: string)
    requires Closes(task, RunEnding(input, s, CountDashboards(before, input.organizationId)), input, resultId, before, after)
    ensures CountDashboards(before, organizationId) <= MAX_ACTIVE_DASHBOARDS ==>
              CountDashboards(after, organizationId) <= MAX_ACTIVE_DASHBOARDS
    ensures organizationId != input.organizationId ==>
              CountDashboards(after, organizationId) == CountDashboards(before, organizationId)
  {
    assert before + [] == before;
    OneMoreResult(before, WorkResult(resultId, input.organizationId, task.id, input.capability, true), organizationId);
  }

  /** A failed task keeps a dashboard exactly when everything up to the result went well and a report of it threw. */
  lemma FailedWithDashboardIff(task: Task, input: WorkInput, s: Surroundings, resultId: string,
                               before: seq<WorkResult>, after: seq<WorkResult>)
    requires var dashboards := CountDashboards(before, input.organizationId);
      Closes(task, RunEnding(input, s, dashboards), input, resultId, before, after)
    ensures var dashboards := CountDashboards(before, input.organizationId);
      task.status == Failed && CountDashboards(after, input.organizationId) > dashboards <==>
      Refusal(input, s, dashboards).None? && BuildFailure(input, s).None? && s.reporting.Error?
  {
    assert before + [] == before;
    OneMoreResult(before, WorkResult(resultId, input.organizationId, task.id, input.capability, true), input.organizationId);
  }

  class DepartmentWorkExecutor {
    const workStore: InMemoryDepartmentWorkStore

    constructor (workStore: InMemoryDepartmentWorkStore)
      ensures this.workStore == workStore
    {
      this.workStore := workStore;
    }

    /**
      Every run adds exactly one task and leaves it completed or failed.  The run itself
      rejects exactly when a failure could not be reported.
     */
    method Run(input: WorkInput, s: Surroundings, taskId: string, resultId: string, now: int)
      returns (task: Task, rejected: bool)
      requires workStore.Valid() && Unused(workStore.tasks, taskId)
      modifies workStore
      ensures workStore.Valid() && task.id == taskId && workStore.tasks == old(workStore.tasks) + [task]
      ensures Closes(task, RunEnding(input, s, CountDashboards(old(workStore.results), input.organizationId)),
                     input, resultId, old(workStore.results), workStore.results)
      ensures rejected <==> task.status == Failed && !s.failureReporting
      ensures task.organizationId == input.organizationId && task.capability == input.capability
      ensures task.createdAt == Some(now) && task.startedAt == Some(Some(now)) && task.completedAt == Some(Some(now))
      ensures task.timeoutMs == 60_000 && (task.errorMessage.Some? <==> task.errorCode.Some?)
    {
      if input.capability in DASHBOARD_RESULT_CAPABILITIES {
        var count := workStore.CountDashboardsForOrg(input.organizationId);
        if count >= MAX_ACTIVE_DASHBOARDS {
          task := Fail(input, "dashboard_limit", DashboardsFull, taskId, now);
          return task, !s.failureReporting;
        }
      }
      if !s.available {
        task := Fail(input, "unavailable", NotAvailable, taskId, now);
        return task, !s.failureReporting;
      }
      if !s.credentials {
        task := Fail(input, "missing", NoCredentials, taskId, now);
        return task, !s.failureReporting;
      }
      task := Task(taskId, input.organizationId, input.capability, Running, Progress,
                   Some(now), Some(Some(now)), None, None, None, None, 60_000);
      workStore.CreateTask(task);
      task := Execute(task, input, s, resultId, now);
      rejected := task.status == Failed && !s.failureReporting;
    }

    method Execute(running: Task, input: WorkInput, s: Surroundings, resultId: string, now: int) returns (task: Task)
      requires workStore.Valid() && workStore.tasks != [] && workStore.tasks[|workStore.tasks| - 1] == running
      requires running.status == Running && running.errorCode == None && running.resultId == None && running.errorMessage == None
      modifies workStore`tasks, workStore`results
      ensures workStore.Valid() && task.id == running.id
      ensures workStore.tasks == old(workStore.tasks)[|old(workStore.tasks)| - 1 := task]
      ensures Closes(task, ExecutionEnding(input, s), input, resultId, old(workStore.results), workStore.results)
      ensures task.(status := running.status, statusMessage := running.statusMessage, completedAt := running.completedAt,
                    resultId := running.resultId, errorCode := running.errorCode, errorMessage := running.errorMessage) == running
      ensures task.completedAt == Some(Some(now)) && (task.errorMessage.Some? <==> task.errorCode.Some?)
    {
      if !HasExecutor(input.capability) {
        task := FailTask(running, "unavailable", NotAvailable, now);
        return;
      }
      if !s.mautic {
        task := FailTask(running, "missing_credentials", NoCredentials, now);
        return;
      }
      if s.provider.Error? {
        task := FailTask(running, s.provider.code, Given(s.provider.message), now);
        return;
      }
      var result := WorkResult(resultId, input.organizationId, running.id, input.capability, true);
      workStore.CreateResult(result);
      var completed := workStore.UpdateTask(running.id, CLOSING.(completedAt := Some(Some(Some(now))), resultId := Some(Some(result.id))));
      task := completed.GetOr(running);
      if s.reporting.Error? {
        task := FailTask(task, s.reporting.code, Given(s.reporting.message), now);
      }
    }

    method Fail(input: WorkInput, code: string, message: Message, taskId: string, now: int) returns (task: Task)
      requires workStore.Valid() && Unused(workStore.tasks, taskId)
      modifies workStore`tasks
      ensures workStore.Valid() && workStore.tasks == old(workStore.tasks) + [task]
      ensures task == Task(taskId, input.organizationId, input.capability, Failed, Progress, Some(now), Some(Some(now)),
                           Some(Some(now)), None, Some(code), Some(message), 60_000)
    {
      task := Task(taskId, input.organizationId, input.capability, Failed, Progress, Some(now), Some(Some(now)),
                   Some(Some(now)), None, Some(code), Some(message), 60_000);
      workStore.CreateTask(task);
    }

    /** A task that was completed before keeps its result. */
    method FailTask(last: Task, code: string, message: Message, now: int) returns (task: Task)
      requires workStore.Valid() && workStore.tasks != [] && workStore.tasks[|workStore.tasks| - 1] == last
      modifies workStore`tasks
      ensures workStore.Valid() && workStore.tasks == old(workStore.tasks)[|old(workStore.tasks)| - 1 := task]
      ensures task == last.(status := Failed, statusMessage := Progress, completedAt := Some(Some(now)),
                            errorCode := Some(code), errorMessage := Some(message))
    {
      var updated := workStore.UpdateTask(last.id, CLOSING.(
        status := Some(Failed), completedAt := Some(Some(Some(now))), errorCode := Some(Some(code)),
        errorMessage := Some(Some(message))));
      task := updated.GetOr(last);
    }
  }
}
