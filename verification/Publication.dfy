/**
  Approval-gated publication to Facebook Pages, under the turn lock.

  A turn prepares, approves or cancels a publication, or resets the conversation.
  `Perform` is one stretch of a turn between two awaits, with an arbitrary answer
  (or throw) of the port that was awaited.  The system interleaves any number of
  turns.  A turn that arrived at the lock moves only while it holds it; the loose
  preparations, which the engine's tool route makes without the lock, move at any time.
 */
module Publication {
  import opened Wrappers
  import TurnLock

  datatype Status = AwaitingApproval | Publishing | Published | Blocked | Cancelled

  /** What a work item is about; `serial` counts prepared works and stands for the generated id. */
  datatype Draft = Draft(serial: nat, approvalId: string, content: string)

  datatype Work = Work(draft: Draft, status: Status, error: Option<string>)

  datatype Kind = Prepare(content: string) | Approve | Cancel | Reset

  /** Whether marketing, a publication runtime and a conversation id are there for the turn. */
  datatype Deps = Deps(marketing: bool, runtime: bool, conversation: bool)

  /** `Begin` is the synchronous start; every other point names the port that is awaited. */
  datatype Point = Begin | Hydrating | Requesting | Deciding | Persisting | Executing | Resetting | Over

  datatype Turn = Turn(kind: Kind, deps: Deps, point: Point, work: Option<Work>)

  datatype Answer =
    | Throws
    | Started
    | Hydrated(verified: bool)
    | Requested(approvalId: string)
    | Decided(approved: bool)
    | Saved
    | Executed(succeeded: bool, code: Option<string>)

  datatype Event =
    | Prepared(draft: Draft)
    | Approved(draft: Draft)
    | Leased(draft: Draft)
    | Called(draft: Draft)
    | Succeeded(draft: Draft)

  /** The session's pending work, the number of works prepared, and what happened at the ports. */
  datatype Memory = Memory(pending: Option<Work>, prepared: nat, log: seq<Event>)

  predicate Expected(point: Point, answer: Answer) {
    match point
    case Begin => answer.Started?
    case Hydrating => answer.Throws? || answer.Hydrated?
    case Requesting => answer.Throws? || answer.Requested?
    case Deciding => answer.Throws? || answer.Decided?
    case Persisting => answer.Throws? || answer.Saved?
    case Executing => answer.Throws? || answer.Executed?
    case Resetting => answer.Throws? || answer.Saved?
    case Over => false
  }

  /** `{ ...work, status }` written to the session. */
  function Put(m: Memory, work: Work, status: Status, error: Option<string>): Memory {
    m.(pending := Some(Work(work.draft, status, error)))
  }

  function Perform(m: Memory, t: Turn, answer: Answer): (Memory, Turn)
    requires Expected(t.point, answer)
    requires t.point in {Persisting, Executing} || (t.point in {Hydrating, Deciding} && !t.kind.Prepare?) ==> t.work.Some?
  {
    var over := t.(point := Over);
    if answer.Throws? then (m, over)
    else
      match t.point
      case Begin =>
        (match t.kind
         case Prepare(content) => (m, if content == "" then over else t.(point := Hydrating))
         case Reset => (m, t.(point := Resetting))
         case _ =>
           if m.pending.None? || m.pending.value.status != AwaitingApproval || !t.deps.marketing then (m, over)
           else (m, t.(point := if t.kind.Cancel? then Deciding else Hydrating, work := m.pending)))
      case Hydrating =>
        if t.kind.Prepare? then
          (m, if answer.verified && t.deps.marketing then t.(point := Requesting) else over)
        else if !answer.verified then
          (Put(m, t.work.value, Blocked, Some("connection_not_verified")), over)
        else (m, t.(point := Deciding))
      case Requesting =>
        if t.kind.Prepare? then
          var draft := Draft(m.prepared, answer.approvalId, t.kind.content);
          (Memory(Some(Work(draft, AwaitingApproval, None)), m.prepared + 1, m.log + [Prepared(draft)]), over)
        else (m, over)
      case Deciding =>
        if t.kind.Prepare? then (m, over)
        else
          var work := t.work.value;
          if t.kind.Cancel? then (Put(m, work, Cancelled, work.error), over)
          else if !answer.approved then (m, over)
          else
            var approved := m.(log := m.log + [Approved(work.draft)]);
            if !t.deps.runtime then (Put(approved, work, Blocked, Some("runtime_not_configured")), over)
            else
              var leased := Put(approved, work, Publishing, work.error).(log := approved.log + [Leased(work.draft)]);
              if t.deps.conversation then (leased, t.(point := Persisting))
              else (leased.(log := leased.log + [Called(work.draft)]), t.(point := Executing))
      case Persisting => (m.(log := m.log + [Called(t.work.value.draft)]), t.(point := Executing))
      case Executing =>
        var work := t.work.value;
        if answer.succeeded then
          (Put(m, work, Published, work.error).(log := m.log + [Succeeded(work.draft)]), over)
        else (Put(m, work, Blocked, Some(answer.code.GetOr("provider_error"))), over)
      case Resetting => (m.(pending := None), over)
      case Over => (m, t)
  }

  // ----- turns under the lock

  /**
    `overtaken` records whether a loose preparation has finished since the turn that holds
    the lock began, or since its own last write of the pending work.
   */
  datatype System = System(lock: TurnLock.State, turns: seq<Turn>, loose: seq<Turn>, memory: Memory, overtaken: bool)

  datatype Action =
    | Arrive(kind: Kind, deps: Deps)
    | Lock(step: TurnLock.Action)
    | Move(k: nat, answer: Answer)
    | PrepareLoose(content: string, deps: Deps)
    | MoveLoose(k: nat, answer: Answer)

  const EMPTY: Memory := Memory(None, 0, [])
  const INITIAL: System := System(TurnLock.INITIAL, [], [], EMPTY, false)

  predicate HasWork(t: Turn) {
    t.point in {Persisting, Executing} || (t.point in {Hydrating, Deciding} && !t.kind.Prepare?) ==> t.work.Some?
  }

  /** Whether a stretch ends by writing the pending work. */
  predicate WritesPending(t: Turn, answer: Answer) {
    match answer
    case Hydrated(verified) => t.point.Hydrating? && !t.kind.Prepare? && !verified
    case Requested(_) => t.point.Requesting? && t.kind.Prepare?
    case Decided(approved) => t.point.Deciding? && !t.kind.Prepare? && (t.kind.Cancel? || approved)
    case Saved => t.point.Resetting?
    case Executed(_, _) => t.point.Executing?
    case _ => false
  }

  /** The lock's `finally` runs only when the turn is over; a turn moves only while it holds the lock. */
  predicate Enabled(s: System, a: Action) {
    match a
    case Arrive(_, _) => true
    case Lock(step) =>
      TurnLock.Enabled(s.lock, step) && !step.Arrive? && (step.Finish? ==> step.k < |s.turns| && s.turns[step.k].point.Over?)
    case Move(k, answer) =>
      k < |s.turns| && k < |s.lock.calls| && s.lock.calls[k].phase == TurnLock.Running
      && Expected(s.turns[k].point, answer) && HasWork(s.turns[k])
    case PrepareLoose(_, _) => true
    case MoveLoose(k, answer) => k < |s.loose| && Expected(s.loose[k].point, answer) && HasWork(s.loose[k])
  }

  function Apply(s: System, a: Action): System
    requires Enabled(s, a)
  {
    match a
    case Arrive(kind, deps) =>
      s.(lock := TurnLock.Apply(s.lock, TurnLock.Arrive), turns := s.turns + [Turn(kind, deps, Begin, None)])
    case Lock(step) => s.(lock := TurnLock.Apply(s.lock, step))
    case Move(k, answer) =>
      var (memory, turn) := Perform(s.memory, s.turns[k], answer);
      s.(turns := s.turns[k := turn], memory := memory,
         overtaken := !s.turns[k].point.Begin? && !WritesPending(s.turns[k], answer) && s.overtaken)
    case PrepareLoose(content, deps) => s.(loose := s.loose + [Turn(Prepare(content), deps, Begin, None)])
    case MoveLoose(k, answer) =>
      var (memory, turn) := Perform(s.memory, s.loose[k], answer);
      s.(loose := s.loose[k := turn], memory := memory, overtaken := WritesPending(s.loose[k], answer) || s.overtaken)
  }

  function Next(s: System, a: Action): System {
    if Enabled(s, a) then Apply(s, a) else s
  }

  function Run(s: System, actions: seq<Action>): System
    decreases |actions|
  {
    if actions == [] then s else Run(Next(s, actions[0]), actions[1..])
  }

  // ----- the log

  ghost predicate Before(log: seq<Event>, e: Event, j: nat)
    requires j <= |log|
  {
    exists i :: 0 <= i < j && log[i] == e
  }

  /** What must have happened to the draft before an event. */
  function Cause(e: Event): Option<Event> {
    match e
    case Prepared(_) => None
    case Approved(draft) => Some(Prepared(draft))
    case Leased(draft) => Some(Approved(draft))
    case Called(draft) => Some(Leased(draft))
    case Succeeded(draft) => Some(Called(draft))
  }

  ghost predicate Caused(log: seq<Event>, j: nat)
    requires j < |log|
  {
    Cause(log[j]).Some? ==> Before(log, Cause(log[j]).value, j)
  }

  /** The publisher is called at most once per work, and only for an approved and leased draft as it was prepared. */
  ghost predicate Disciplined(log: seq<Event>) {
    && (forall i, j :: 0 <= i < j < |log| && log[i].Called? && log[j].Called? ==>
          log[i].draft.serial != log[j].draft.serial)
    && (forall j :: 0 <= j < |log| ==> Caused(log, j))
  }

  lemma BeforeLonger(log: seq<Event>, e: Event, cause: Event, j: nat)
    requires j <= |log| && Before(log, cause, j)
    ensures Before(log + [e], cause, j)
  {
    var i :| 0 <= i < j && log[i] == cause;
    assert (log + [e])[i] == cause;
  }

  lemma LongerLog(log: seq<Event>, e: Event)
    requires Disciplined(log)
    requires e.Called? ==> (forall i :: 0 <= i < |log| && log[i].Called? ==> log[i].draft.serial != e.draft.serial)
    requires Cause(e).Some? ==> Cause(e).value in log
    ensures Disciplined(log + [e])
  {
    var longer := log + [e];
    forall j | 0 <= j < |longer| ensures Caused(longer, j) {
      if j < |log| {
        assert Caused(log, j);
      }
      if Cause(longer[j]).Some? {
        BeforeLonger(log, e, Cause(longer[j]).value, j);
      }
    }
  }

  // ----- what every step keeps

  ghost predicate Fresh(log: seq<Event>, serial: nat) {
    forall i :: 0 <= i < |log| && (log[i].Leased? || log[i].Called? || log[i].Succeeded?) ==> log[i].draft.serial != serial
  }

  ghost predicate NotCalled(log: seq<Event>, serial: nat) {
    forall i :: 0 <= i < |log| && (log[i].Called? || log[i].Succeeded?) ==> log[i].draft.serial != serial
  }

  ghost predicate NotSucceeded(log: seq<Event>, serial: nat) {
    forall i :: 0 <= i < |log| && log[i].Succeeded? ==> log[i].draft.serial != serial
  }

  ghost predicate MemoryInv(m: Memory) {
    && Disciplined(m.log)
    && (forall i :: 0 <= i < |m.log| ==> m.log[i].draft.serial < m.prepared)
    && (m.pending.Some? ==>
          var work := m.pending.value;
          && Prepared(work.draft) in m.log
          && (work.status == AwaitingApproval ==> Fresh(m.log, work.draft.serial))
          && (work.status == Published ==> Succeeded(work.draft) in m.log)
          && (work.status != Published ==> NotSucceeded(m.log, work.draft.serial)))
  }

  /** What the turn that holds the lock knows, even when a loose preparation has replaced the pending work. */
  ghost predicate TurnInv(m: Memory, t: Turn) {
    match t.point
    case Hydrating => t.kind.Prepare? || (t.kind.Approve? && Untouched(m, t))
    case Deciding => (t.kind.Approve? || t.kind.Cancel?) && Untouched(m, t)
    case Persisting =>
      && t.work.Some? && Prepared(t.work.value.draft) in m.log && Leased(t.work.value.draft) in m.log
      && NotCalled(m.log, t.work.value.draft.serial)
    case Executing =>
      && t.work.Some? && Prepared(t.work.value.draft) in m.log && Called(t.work.value.draft) in m.log
      && NotSucceeded(m.log, t.work.value.draft.serial)
    case Requesting => t.kind.Prepare?
    case _ => true
  }

  ghost predicate Untouched(m: Memory, t: Turn) {
    && t.work.Some? && t.work.value.status == AwaitingApproval
    && Prepared(t.work.value.draft) in m.log && Fresh(m.log, t.work.value.draft.serial)
  }

  lemma LogWith(log: seq<Event>, e: Event)
    ensures e in log + [e] && forall x :: x in log ==> x in log + [e]
  {
    assert (log + [e])[|log|] == e;
  }

  lemma RequestingKeepsMemory(m: Memory, t: Turn, answer: Answer)
    requires MemoryInv(m) && t.point.Requesting? && answer.Requested? && t.kind.Prepare?
    ensures MemoryInv(Perform(m, t, answer).0)
  {
    var d := Draft(m.prepared, answer.approvalId, t.kind.content);
    LongerLog(m.log, Prepared(d));
    LogWith(m.log, Prepared(d));
  }

  lemma ApprovedKeepsMemory(m: Memory, d: Draft)
    requires MemoryInv(m) && Prepared(d) in m.log
    ensures MemoryInv(m.(log := m.log + [Approved(d)]))
  {
    LongerLog(m.log, Approved(d));
    LogWith(m.log, Approved(d));
  }

  lemma LeasedKeepsMemory(m: Memory, work: Work)
    requires MemoryInv(m) && Prepared(work.draft) in m.log && Approved(work.draft) in m.log
    requires Fresh(m.log, work.draft.serial)
    ensures MemoryInv(Put(m, work, Publishing, work.error).(log := m.log + [Leased(work.draft)]))
    ensures NotCalled(m.log + [Leased(work.draft)], work.draft.serial)
  {
    LongerLog(m.log, Leased(work.draft));
    LogWith(m.log, Leased(work.draft));
  }

  lemma CalledKeepsMemory(m: Memory, d: Draft)
    requires MemoryInv(m) && Leased(d) in m.log && NotCalled(m.log, d.serial)
    ensures MemoryInv(m.(log := m.log + [Called(d)])) && NotSucceeded(m.log + [Called(d)], d.serial)
  {
    LongerLog(m.log, Called(d));
    LogWith(m.log, Called(d));
  }

  lemma {:induction false} DecidingKeepsMemory(m: Memory, t: Turn, answer: Answer)
    requires MemoryInv(m) && TurnInv(m, t) && t.point.Deciding? && answer.Decided?
    ensures var (m', t') := Perform(m, t, answer); MemoryInv(m') && TurnInv(m', t')
  {
    if t.kind.Approve? && answer.approved {
      var work := t.work.value;
      var approved := m.(log := m.log + [Approved(work.draft)]);
      ApprovedKeepsMemory(m, work.draft);
      LogWith(m.log, Approved(work.draft));
      if t.deps.runtime {
        LeasedKeepsMemory(approved, work);
        LogWith(approved.log, Leased(work.draft));
        if !t.deps.conversation {
          var leased := Put(approved, work, Publishing, work.error).(log := approved.log + [Leased(work.draft)]);
          CalledKeepsMemory(leased, work.draft);
          LogWith(leased.log, Called(work.draft));
        }
      }
    }
  }

  lemma PersistingKeepsMemory(m: Memory, t: Turn, answer: Answer)
    requires MemoryInv(m) && TurnInv(m, t) && t.point.Persisting? && answer.Saved?
    ensures var (m', t') := Perform(m, t, answer); MemoryInv(m') && TurnInv(m', t')
  {
    CalledKeepsMemory(m, t.work.value.draft);
    LogWith(m.log, Called(t.work.value.draft));
  }

  lemma ExecutingKeepsMemory(m: Memory, t: Turn, answer: Answer)
    requires MemoryInv(m) && TurnInv(m, t) && t.point.Executing? && answer.Executed?
    ensures MemoryInv(Perform(m, t, answer).0)
  {
    if answer.succeeded {
      var d := t.work.value.draft;
      LongerLog(m.log, Succeeded(d));
      LogWith(m.log, Succeeded(d));
    }
  }

  lemma PerformKeepsMemory(m: Memory, t: Turn, answer: Answer)
    requires MemoryInv(m) && TurnInv(m, t) && Expected(t.point, answer) && HasWork(t)
    ensures var (m', t') := Perform(m, t, answer); MemoryInv(m') && TurnInv(m', t')
  {
    if !answer.Throws? {
      match t.point
      case Requesting => RequestingKeepsMemory(m, t, answer);
      case Deciding => DecidingKeepsMemory(m, t, answer);
      case Persisting => PersistingKeepsMemory(m, t, answer);
      case Executing => ExecutingKeepsMemory(m, t, answer);
      case _ =>
    }
  }

  /** A preparation takes nothing from what another turn knows. */
  lemma PrepareKeepsTurn(m: Memory, prepare: Turn, answer: Answer, t: Turn)
    requires prepare.kind.Prepare? && TurnInv(m, prepare) && Expected(prepare.point, answer) && HasWork(prepare)
    requires prepare.point.Begin? || prepare.point.Hydrating? || prepare.point.Requesting?
    requires TurnInv(m, t)
    ensures TurnInv(Perform(m, prepare, answer).0, t)
  {
    if prepare.point.Requesting? && !answer.Throws? {
      LogWith(m.log, Prepared(Draft(m.prepared, answer.approvalId, prepare.kind.content)));
    }
  }

  ghost predicate Inv(s: System) {
    && TurnLock.Inv(s.lock)
    && |s.turns| == |s.lock.calls|
    && MemoryInv(s.memory)
    && (forall k :: 0 <= k < |s.turns| ==> Holds(s, k))
    && (forall k :: 0 <= k < |s.loose| ==> Preparing(s.loose[k]))
  }

  /** A loose turn only prepares. */
  predicate Preparing(t: Turn) {
    t.kind.Prepare? && t.point in {Begin, Hydrating, Requesting, Over}
  }

  /** A turn in mid-course holds the lock; one that has left the lock is over. */
  ghost predicate Holds(s: System, k: nat)
    requires k < |s.turns| == |s.lock.calls|
  {
    && TurnInv(s.memory, s.turns[k])
    && (!s.turns[k].point.Begin? && !s.turns[k].point.Over? ==> s.lock.calls[k].phase == TurnLock.Running)
    && (s.lock.calls[k].phase == TurnLock.Done ==> s.turns[k].point.Over?)
  }

  lemma StepKeepsInv(s: System, a: Action)
    requires Inv(s)
    ensures Inv(Next(s, a))
  {
    if Enabled(s, a) {
      var t := Next(s, a);
      match a
      case Arrive(_, _) =>
        TurnLock.StepKeepsInv(s.lock, TurnLock.Arrive);
        forall k | 0 <= k < |t.turns| ensures Holds(t, k) {
          assert k < |s.turns| ==> Holds(s, k);
        }
      case Lock(step) =>
        TurnLock.StepKeepsInv(s.lock, step);
        forall k | 0 <= k < |t.turns| ensures Holds(t, k) {
          assert Holds(s, k);
        }
      case Move(i, answer) => MoveKeepsInv(s, i, answer);
      case PrepareLoose(_, _) =>
        forall k | 0 <= k < |t.turns| ensures Holds(t, k) {
          assert Holds(s, k);
        }
      case MoveLoose(i, answer) => MoveLooseKeepsInv(s, i, answer);
    }
  }

  lemma MoveKeepsInv(s: System, i: nat, answer: Answer)
    requires Inv(s) && Enabled(s, Move(i, answer))
    ensures Inv(Next(s, Move(i, answer)))
  {
    var t := Next(s, Move(i, answer));
    assert Holds(s, i);
    PerformKeepsMemory(s.memory, s.turns[i], answer);
    forall k | 0 <= k < |t.turns| ensures Holds(t, k) {
      assert Holds(s, k);
      if k != i && !s.turns[k].point.Begin? && !s.turns[k].point.Over? {
        TurnLock.OneRunning(s.lock, i, k);
      }
    }
  }

  lemma MoveLooseKeepsInv(s: System, i: nat, answer: Answer)
    requires Inv(s) && Enabled(s, MoveLoose(i, answer))
    ensures Inv(Next(s, MoveLoose(i, answer)))
  {
    var t := Next(s, MoveLoose(i, answer));
    assert Preparing(s.loose[i]);
    PerformKeepsMemory(s.memory, s.loose[i], answer);
    forall k | 0 <= k < |t.turns| ensures Holds(t, k) {
      assert Holds(s, k);
      PrepareKeepsTurn(s.memory, s.loose[i], answer, s.turns[k]);
    }
  }

  lemma {:induction false} RunKeepsInv(s: System, actions: seq<Action>)
    requires Inv(s)
    ensures Inv(Run(s, actions))
    decreases |actions|
  {
    if actions != [] {
      StepKeepsInv(s, actions[0]);
      RunKeepsInv(Next(s, actions[0]), actions[1..]);
    }
  }

  // ----- every interleaving of turns

  /** In every run the publisher is called at most once per work, after approval and lease, with the prepared text. */
  lemma PublishedAtMostOnce(actions: seq<Action>)
    ensures Disciplined(Run(INITIAL, actions).memory.log)
  {
    RunKeepsInv(INITIAL, actions);
  }

  /** The pending work is "published" exactly when the call for it succeeded. */
  lemma PublishedIffSucceeded(actions: seq<Action>)
    ensures var m := Run(INITIAL, actions).memory;
      m.pending.Some? ==> (m.pending.value.status == Published <==> Succeeded(m.pending.value.draft) in m.log)
  {
    RunKeepsInv(INITIAL, actions);
  }

  // ----- drafts that a decision overwrites

  /** A turn that has taken up a work and is not over. */
  predicate InMidCourse(t: Turn) {
    (t.kind.Approve? || t.kind.Cancel?) && t.point in {Hydrating, Deciding, Persisting, Executing}
  }

  ghost predicate TakenUp(m: Memory, t: Turn, overtaken: bool) {
    InMidCourse(t) ==>
      && t.work.Some? && m.pending.Some? && Prepared(t.work.value.draft) in m.log
      && (!overtaken ==> m.pending.value.draft == t.work.value.draft)
      && (overtaken ==> m.pending.value.draft != t.work.value.draft && m.pending.value.status == AwaitingApproval)
  }

  ghost predicate AllTakenUp(s: System) {
    forall k :: 0 <= k < |s.turns| ==> TakenUp(s.memory, s.turns[k], s.overtaken)
  }

  lemma MoveTakesUp(m: Memory, t: Turn, answer: Answer, overtaken: bool)
    requires MemoryInv(m) && TurnInv(m, t) && TakenUp(m, t, overtaken) && Expected(t.point, answer) && HasWork(t)
    ensures var (m', t') := Perform(m, t, answer);
      TakenUp(m', t', !t.point.Begin? && !WritesPending(t, answer) && overtaken)
  {
    if InMidCourse(t) {
      var d := t.work.value.draft;
      LogWith(m.log, Approved(d));
      LogWith(m.log + [Approved(d)], Leased(d));
      LogWith(m.log + [Approved(d), Leased(d)], Called(d));
      LogWith(m.log, Called(d));
      assert m.log + [Approved(d)] + [Leased(d)] == m.log + [Approved(d), Leased(d)];
    }
  }

  lemma LooseMoveTakesUp(m: Memory, loose: Turn, answer: Answer, t: Turn, overtaken: bool)
    requires MemoryInv(m) && Preparing(loose) && Expected(loose.point, answer) && HasWork(loose)
    requires TakenUp(m, t, overtaken)
    ensures TakenUp(Perform(m, loose, answer).0, t, WritesPending(loose, answer) || overtaken)
  {
    if loose.point.Requesting? && !answer.Throws? {
      LogWith(m.log, Prepared(Draft(m.prepared, answer.approvalId, loose.kind.content)));
    }
  }

  lemma StepTakesUp(s: System, a: Action)
    requires Inv(s) && AllTakenUp(s)
    ensures AllTakenUp(Next(s, a))
  {
    if Enabled(s, a) {
      var t := Next(s, a);
      match a
      case Move(i, answer) =>
        assert Holds(s, i);
        MoveTakesUp(s.memory, s.turns[i], answer, s.overtaken);
        forall k | 0 <= k < |t.turns| ensures TakenUp(t.memory, t.turns[k], t.overtaken) {
          assert Holds(s, k);
          if k != i && InMidCourse(s.turns[k]) {
            TurnLock.OneRunning(s.lock, i, k);
          }
        }
      case MoveLoose(i, answer) =>
        forall k | 0 <= k < |t.turns| ensures TakenUp(t.memory, t.turns[k], t.overtaken) {
          LooseMoveTakesUp(s.memory, s.loose[i], answer, s.turns[k], s.overtaken);
        }
      case _ =>
    }
  }

  lemma {:induction false} RunTakesUp(s: System, actions: seq<Action>)
    requires Inv(s) && AllTakenUp(s)
    ensures AllTakenUp(Run(s, actions))
    decreases |actions|
  {
    if actions != [] {
      StepKeepsInv(s, actions[0]);
      StepTakesUp(s, actions[0]);
      RunTakesUp(Next(s, actions[0]), actions[1..]);
    }
  }

  /**
    In every run, the pending draft is no longer the one that a mid-course approval or
    cancellation took up exactly when a loose preparation finished since that turn began
    or since its own last write.
   */
  lemma OvertakenIff(actions: seq<Action>, k: nat)
    requires k < |Run(INITIAL, actions).turns| && InMidCourse(Run(INITIAL, actions).turns[k])
    ensures var s := Run(INITIAL, actions);
      && s.turns[k].work.Some? && s.memory.pending.Some?
      && (s.memory.pending.value.draft != s.turns[k].work.value.draft <==> LooseSince(actions))
  {
    OvertakenIsLooseSince(actions);
    RunTakesUp(INITIAL, actions);
    assert TakenUp(Run(INITIAL, actions).memory, Run(INITIAL, actions).turns[k], Run(INITIAL, actions).overtaken);
  }

  lemma {:induction false} RunOfBoth(s: System, before: seq<Action>, after: seq<Action>)
    ensures Run(s, before + after) == Run(Run(s, before), after)
    decreases |before|
  {
    if before == [] {
      assert before + after == after;
    } else {
      RunOfBoth(Next(s, before[0]), before[1..], after);
      assert (before + after)[1..] == before[1..] + after;
    }
  }

  /** Action `j` of the run is a loose preparation that finishes. */
  predicate FinishesLoose(actions: seq<Action>, j: nat)
    requires j < |actions|
  {
    var s := Run(INITIAL, actions[..j]);
    actions[j].MoveLoose? && Enabled(s, actions[j]) && WritesPending(s.loose[actions[j].k], actions[j].answer)
  }

  /** Action `j` begins the turn that holds the lock, or is its own write of the pending work. */
  predicate BeginsOrWrites(actions: seq<Action>, j: nat)
    requires j < |actions|
  {
    var s := Run(INITIAL, actions[..j]);
    && actions[j].Move? && Enabled(s, actions[j])
    && (s.turns[actions[j].k].point.Begin? || WritesPending(s.turns[actions[j].k], actions[j].answer))
  }

  ghost predicate LooseSince(actions: seq<Action>) {
    exists j :: 0 <= j < |actions| && LooseAt(actions, j)
  }

  lemma SameInPrefix(actions: seq<Action>, n: nat)
    requires n <= |actions|
    ensures forall j :: 0 <= j < n ==> (FinishesLoose(actions[..n], j) <==> FinishesLoose(actions, j))
    ensures forall j :: 0 <= j < n ==> (BeginsOrWrites(actions[..n], j) <==> BeginsOrWrites(actions, j))
  {
    forall j | 0 <= j < n
      ensures FinishesLoose(actions[..n], j) <==> FinishesLoose(actions, j)
      ensures BeginsOrWrites(actions[..n], j) <==> BeginsOrWrites(actions, j)
    {
      assert actions[..n][..j] == actions[..j];
    }
  }

  ghost predicate LooseAt(actions: seq<Action>, j: nat)
    requires j < |actions|
  {
    FinishesLoose(actions, j) && forall h :: j < h < |actions| ==> !BeginsOrWrites(actions, h)
  }

  lemma LooseSinceNext(actions: seq<Action>)
    requires actions != []
    ensures var n := |actions| - 1;
      LooseSince(actions) <==> FinishesLoose(actions, n) || (LooseSince(actions[..n]) && !BeginsOrWrites(actions, n))
  {
    var n := |actions| - 1;
    SameInPrefix(actions, n);
    if LooseSince(actions[..n]) && !BeginsOrWrites(actions, n) {
      var j :| 0 <= j < n && LooseAt(actions[..n], j);
      assert LooseAt(actions, j);
    }
    if FinishesLoose(actions, n) {
      assert LooseAt(actions, n);
    } else if LooseSince(actions) {
      var j :| 0 <= j < |actions| && LooseAt(actions, j);
      assert LooseAt(actions[..n], j);
    }
  }

  /** What is recorded, told by the schedule alone. */
  lemma {:induction false} OvertakenIsLooseSince(actions: seq<Action>)
    ensures Run(INITIAL, actions).overtaken <==> LooseSince(actions)
    decreases |actions|
  {
    if actions != [] {
      var n := |actions| - 1;
      OvertakenIsLooseSince(actions[..n]);
      LooseSinceNext(actions);
      RunOfBoth(INITIAL, actions[..n], [actions[n]]);
      assert actions == actions[..n] + [actions[n]] && [actions[n]][1..] == [];
      assert Run(INITIAL, actions) == Next(Run(INITIAL, actions[..n]), actions[n]);
    }
  }

  /** A draft that awaits approval is pending before the step and not after it, and the turn never took it up. */
  ghost predicate LosesADraft(s: System, k: nat, answer: Answer)
    requires k < |s.turns| && s.turns[k].work.Some?
  {
    var after := Next(s, Move(k, answer)).memory.pending;
    && s.memory.pending.Some? && s.memory.pending.value.status == AwaitingApproval
    && s.memory.pending.value.draft != s.turns[k].work.value.draft
    && (after.None? || after.value.draft != s.memory.pending.value.draft)
  }

  lemma LosesWhenOvertaken(s: System, k: nat, answer: Answer)
    requires Inv(s) && AllTakenUp(s) && k < |s.turns| && InMidCourse(s.turns[k]) && Enabled(s, Move(k, answer))
    ensures s.turns[k].work.Some?
    ensures LosesADraft(s, k, answer) <==> s.overtaken && WritesPending(s.turns[k], answer)
  {
    assert Holds(s, k) && TakenUp(s.memory, s.turns[k], s.overtaken);
  }

  /** In every run, a step of a mid-course decision loses such a draft exactly when it writes after having been overtaken. */
  lemma LosesADraftIff(actions: seq<Action>, k: nat, answer: Answer)
    requires var s := Run(INITIAL, actions);
      k < |s.turns| && InMidCourse(s.turns[k]) && Enabled(s, Move(k, answer))
    ensures Run(INITIAL, actions).turns[k].work.Some?
    ensures var s := Run(INITIAL, actions);
      LosesADraft(s, k, answer) <==> LooseSince(actions) && WritesPending(s.turns[k], answer)
  {
    OvertakenIsLooseSince(actions);
    RunKeepsInv(INITIAL, actions);
    RunTakesUp(INITIAL, actions);
    LosesWhenOvertaken(Run(INITIAL, actions), k, answer);
  }

  /** Without loose preparations no decision is ever overtaken, so none loses a draft. */
  lemma {:induction false} NeverOvertakenUnderLock(s: System, actions: seq<Action>)
    requires !s.overtaken && forall i :: 0 <= i < |actions| ==> !actions[i].MoveLoose?
    ensures !Run(s, actions).overtaken
    decreases |actions|
  {
    if actions != [] {
      NeverOvertakenUnderLock(Next(s, actions[0]), actions[1..]);
    }
  }

  /** Such a run from an approval at the publisher: the draft prepared meanwhile is gone. */
  lemma DraftIsOverwritten(d: Draft, content: string, approvalId: string)
    requires d.serial == 0
    ensures
      var approval := Turn(Approve, Deps(true, true, false), Executing, Some(Work(d, AwaitingApproval, None)));
      var loose := Turn(Prepare(content), Deps(true, true, false), Requesting, None);
      var m := Memory(Some(Work(d, Publishing, None)), 1, [Prepared(d), Approved(d), Leased(d), Called(d)]);
      var prepared := Perform(m, loose, Requested(approvalId)).0;
      && prepared.pending == Some(Work(Draft(1, approvalId, content), AwaitingApproval, None))
      && Perform(prepared, approval, Executed(true, None)).0.pending == Some(Work(d, Published, None))
  {
  }

  // ----- the same turns without the lock

  function Unguarded(m: Memory, turns: seq<Turn>, moves: seq<(nat, Answer)>): Memory
    decreases |moves|
  {
    if moves == [] then m
    else
      var (k, answer) := moves[0];
      if k < |turns| && Expected(turns[k].point, answer) && HasWork(turns[k]) then
        var (memory, turn) := Perform(m, turns[k], answer);
        Unguarded(memory, turns[k := turn], moves[1..])
      else Unguarded(m, turns, moves[1..])
  }

  lemma UnguardedMove(m: Memory, turns: seq<Turn>, k: nat, answer: Answer, rest: seq<(nat, Answer)>)
    requires k < |turns| && Expected(turns[k].point, answer) && HasWork(turns[k])
    ensures var (memory, turn) := Perform(m, turns[k], answer);
      Unguarded(m, turns, [(k, answer)] + rest) == Unguarded(memory, turns[k := turn], rest)
  {
    assert ([(k, answer)] + rest)[1..] == rest;
  }

  /** Without the lock two approvals of one work may both pass the status check and publish twice. */
  lemma WithoutLockPublishesTwice(d: Draft)
    ensures
      var approval := Turn(Approve, Deps(true, true, false), Begin, None);
      var m := Memory(Some(Work(d, AwaitingApproval, None)), d.serial + 1, [Prepared(d)]);
      exists moves :: !Disciplined(Unguarded(m, [approval, approval], moves).log)
  {
    var b := Turn(Approve, Deps(true, true, false), Begin, None);
    var h := Turn(Approve, Deps(true, true, false), Hydrating, Some(Work(d, AwaitingApproval, None)));
    var c, e := h.(point := Deciding), h.(point := Executing);
    var m0 := Memory(h.work, d.serial + 1, [Prepared(d)]);
    var decisions := [(0, Decided(true))] + ([(1, Decided(true))] + []);
    var hydrations := [(0, Hydrated(true))] + ([(1, Hydrated(true))] + decisions);
    var moves := [(0, Started)] + ([(1, Started)] + hydrations);

    UnguardedMove(m0, [b, b], 0, Started, [(1, Started)] + hydrations);
    assert [b, b][0 := h] == [h, b];
    UnguardedMove(m0, [h, b], 1, Started, hydrations);
    assert [h, b][1 := h] == [h, h];
    UnguardedMove(m0, [h, h], 0, Hydrated(true), [(1, Hydrated(true))] + decisions);
    assert [h, h][0 := c] == [c, h];
    UnguardedMove(m0, [c, h], 1, Hydrated(true), decisions);
    assert [c, h][1 := c] == [c, c];
    TwoDecisions(d, m0, c, e, decisions);
    assert Unguarded(m0, [b, b], moves) == Unguarded(m0, [c, c], decisions);
  }

  lemma TwoDecisions(d: Draft, m0: Memory, c: Turn, e: Turn, decisions: seq<(nat, Answer)>)
    requires m0 == Memory(Some(Work(d, AwaitingApproval, None)), d.serial + 1, [Prepared(d)])
    requires c == Turn(Approve, Deps(true, true, false), Deciding, m0.pending) && e == c.(point := Executing)
    requires decisions == [(0, Decided(true))] + ([(1, Decided(true))] + [])
    ensures !Disciplined(Unguarded(m0, [c, c], decisions).log)
  {
    var m1 := Perform(m0, c, Decided(true)).0;
    var m2 := Perform(m1, c, Decided(true)).0;
    UnguardedMove(m0, [c, c], 0, Decided(true), [(1, Decided(true))] + []);
    assert [c, c][0 := e] == [e, c];
    UnguardedMove(m1, [e, c], 1, Decided(true), []);
    assert m2.log[3] == m2.log[6] == Called(d);
  }

  // ----- the code of one turn, with the answers its ports will give

  datatype Ports = Ports(hydration: Answer, request: Answer, decision: Answer, lease: Answer, execution: Answer)

  predicate ProperPorts(p: Ports) {
    && Expected(Hydrating, p.hydration) && Expected(Requesting, p.request) && Expected(Deciding, p.decision)
    && Expected(Persisting, p.lease) && Expected(Executing, p.execution)
  }

  function Reply(p: Ports, point: Point): Answer {
    match point
    case Hydrating => p.hydration
    case Requesting => p.request
    case Deciding => p.decision
    case Persisting => p.lease
    case Executing => p.execution
    case Resetting => Saved
    case _ => Started
  }

  function Rank(point: Point): nat {
    match point
    case Begin => 6
    case Hydrating => 5
    case Requesting => 4
    case Deciding => 4
    case Persisting => 3
    case Executing => 2
    case Resetting => 1
    case Over => 0
  }

  /** All the moves of one turn, one after another. */
  function Drive(m: Memory, t: Turn, p: Ports): Memory
    requires ProperPorts(p) && HasWork(t)
    decreases Rank(t.point)
  {
    if t.point.Over? then m
    else
      var (m', t') := Perform(m, t, Reply(p, t.point));
      Drive(m', t', p)
  }

  lemma LastMove(m: Memory, t: Turn, p: Ports)
    requires ProperPorts(p) && HasWork(t) && !t.point.Over?
    ensures var (m', t') := Perform(m, t, Reply(p, t.point)); t'.point.Over? ==> Drive(m, t, p) == m'
  {
    var (m', t') := Perform(m, t, Reply(p, t.point));
    assert t'.point.Over? ==> Drive(m', t', p) == m';
  }

  lemma {:induction false} DriveKeepsMemory(m: Memory, t: Turn, p: Ports)
    requires MemoryInv(m) && TurnInv(m, t) && ProperPorts(p) && HasWork(t)
    ensures MemoryInv(Drive(m, t, p))
    decreases Rank(t.point)
  {
    if !t.point.Over? {
      PerformKeepsMemory(m, t, Reply(p, t.point));
      var (m', t') := Perform(m, t, Reply(p, t.point));
      DriveKeepsMemory(m', t', p);
    }
  }

  // ----- how each turn ends, told by the state it found and the answers it got

  /** The work that was pending has the status and error, and the events were added to the log. */
  predicate Ends(before: Memory, after: Memory, status: Status, error: Option<string>, gained: seq<Event>) {
    before.pending.Some? && after == Memory(Some(Work(before.pending.value.draft, status, error)), before.prepared, before.log + gained)
  }

  /** There is a draft to decide on. */
  predicate Decidable(m: Memory, deps: Deps) {
    m.pending.Some? && m.pending.value.status == AwaitingApproval && deps.marketing
  }

  predicate IsApproved(m: Memory, deps: Deps, p: Ports) {
    Decidable(m, deps) && p.hydration == Hydrated(true) && p.decision == Decided(true)
  }

  /** The publisher is reached. */
  predicate IsCalled(m: Memory, deps: Deps, p: Ports) {
    IsApproved(m, deps, p) && deps.runtime && (deps.conversation ==> p.lease.Saved?)
  }

  /** A port that was awaited threw, and the turn with it. */
  predicate DecisionThrows(m: Memory, approve: bool, deps: Deps, p: Ports) {
    && Decidable(m, deps)
    && if !approve then p.decision.Throws?
       else
         || p.hydration.Throws?
         || (p.hydration == Hydrated(true) && p.decision.Throws?)
         || (IsApproved(m, deps, p) && deps.runtime && deps.conversation && p.lease.Throws?)
         || (IsCalled(m, deps, p) && p.execution.Throws?)
  }

  ghost predicate ApprovalEnds(m: Memory, deps: Deps, p: Ports, after: Memory)
    requires Decidable(m, deps)
  {
    var d, error := m.pending.value.draft, m.pending.value.error;
    && (p.hydration.Throws? ==> after == m)
    && (p.hydration == Hydrated(false) ==> Ends(m, after, Blocked, Some("connection_not_verified"), []))
    && (p.hydration == Hydrated(true) && p.decision != Decided(true) ==> after == m)
    && (IsApproved(m, deps, p) && !deps.runtime ==> Ends(m, after, Blocked, Some("runtime_not_configured"), [Approved(d)]))
    && (IsApproved(m, deps, p) && deps.runtime && deps.conversation && p.lease.Throws? ==>
          Ends(m, after, Publishing, error, [Approved(d), Leased(d)]))
    && (IsCalled(m, deps, p) && p.execution.Throws? ==>
          Ends(m, after, Publishing, error, [Approved(d), Leased(d), Called(d)]))
    && (IsCalled(m, deps, p) && p.execution.Executed? && !p.execution.succeeded ==>
          Ends(m, after, Blocked, Some(p.execution.code.GetOr("provider_error")), [Approved(d), Leased(d), Called(d)]))
    && (IsCalled(m, deps, p) && p.execution.Executed? && p.execution.succeeded ==>
          Ends(m, after, Published, error, [Approved(d), Leased(d), Called(d), Succeeded(d)]))
  }

  ghost predicate DecisionEnds(m: Memory, approve: bool, deps: Deps, p: Ports, after: Memory) {
    if !Decidable(m, deps) then after == m
    else if approve then ApprovalEnds(m, deps, p, after)
    else if p.decision.Throws? then after == m
    else Ends(m, after, Cancelled, m.pending.value.error, [])
  }

  predicate IsDrafted(content: string, deps: Deps, p: Ports) {
    content != "" && p.hydration == Hydrated(true) && deps.marketing && p.request.Requested?
  }

  ghost predicate PreparationEnds(m: Memory, content: string, deps: Deps, p: Ports, after: Memory) {
    if !IsDrafted(content, deps, p) then after == m
    else
      var d := Draft(m.prepared, p.request.approvalId, content);
      after == Memory(Some(Work(d, AwaitingApproval, None)), m.prepared + 1, m.log + [Prepared(d)])
  }

  lemma CalledEnds(m: Memory, t: Turn, p: Ports)
    requires ProperPorts(p) && t.point.Executing? && t.work.Some?
    ensures var w := t.work.value;
      Drive(m, t, p) ==
      if p.execution.Throws? then m
      else if p.execution.succeeded then
        Memory(Some(Work(w.draft, Published, w.error)), m.prepared, m.log + [Succeeded(w.draft)])
      else Memory(Some(Work(w.draft, Blocked, Some(p.execution.code.GetOr("provider_error")))), m.prepared, m.log)
  {
    LastMove(m, t, p);
  }

  lemma LeaseEnds(m: Memory, t: Turn, p: Ports)
    requires ProperPorts(p) && t.point.Persisting? && t.work.Some?
    ensures Drive(m, t, p) ==
            if p.lease.Throws? then m
            else Drive(m.(log := m.log + [Called(t.work.value.draft)]), t.(point := Executing), p)
  {
    LastMove(m, t, p);
  }

  lemma DecidedEnds(m: Memory, t: Turn, p: Ports)
    requires ProperPorts(p) && t.point.Deciding? && t.kind.Approve? && t.work.Some? && m.pending == t.work
    requires t.work.value.status == AwaitingApproval && t.deps.marketing && p.hydration == Hydrated(true)
    ensures ApprovalEnds(m, t.deps, p, Drive(m, t, p))
  {
    LastMove(m, t, p);
    if p.decision == Decided(true) && t.deps.runtime {
      var w := t.work.value;
      var leased := Memory(Some(Work(w.draft, Publishing, w.error)), m.prepared, m.log + [Approved(w.draft)] + [Leased(w.draft)]);
      var called := leased.(log := leased.log + [Called(w.draft)]);
      CalledEnds(called, t.(point := Executing), p);
      if t.deps.conversation {
        LeaseEnds(leased, t.(point := Persisting), p);
        assert Perform(m, t, p.decision) == (leased, t.(point := Persisting));
      } else {
        assert Perform(m, t, p.decision) == (called, t.(point := Executing));
      }
    }
  }

  /**
    How an approval or a cancellation ends, for every state and every answer.  In particular
    an approved draft is published when its connection is verified, a runtime is there, the
    lease is saved whenever there is a conversation, and the publisher succeeds.
   */
  lemma DecisionEndsSo(m: Memory, approve: bool, deps: Deps, p: Ports)
    requires ProperPorts(p)
    ensures DecisionEnds(m, approve, deps, p, Drive(m, Turn(if approve then Approve else Cancel, deps, Begin, None), p))
  {
    var begin := Turn(if approve then Approve else Cancel, deps, Begin, None);
    LastMove(m, begin, p);
    if Decidable(m, deps) {
      var taken := begin.(point := if approve then Hydrating else Deciding, work := m.pending);
      assert Perform(m, begin, Started) == (m, taken);
      LastMove(m, taken, p);
      if approve && p.hydration == Hydrated(true) {
        assert Perform(m, taken, p.hydration) == (m, taken.(point := Deciding));
        DecidedEnds(m, taken.(point := Deciding), p);
      }
    }
  }

  /** There is no other way for it to end. */
  lemma DecisionEndsOneWay(m: Memory, approve: bool, deps: Deps, p: Ports, a: Memory, b: Memory)
    requires ProperPorts(p) && DecisionEnds(m, approve, deps, p, a) && DecisionEnds(m, approve, deps, p, b)
    ensures a == b
  {
  }

  /** How a preparation ends: a draft that awaits approval, or nothing at all. */
  lemma PreparationEndsSo(m: Memory, content: string, deps: Deps, p: Ports)
    requires ProperPorts(p)
    ensures PreparationEnds(m, content, deps, p, Drive(m, Turn(Prepare(content), deps, Begin, None), p))
  {
    var begin := Turn(Prepare(content), deps, Begin, None);
    LastMove(m, begin, p);
    if content != "" {
      var hydrating := begin.(point := Hydrating);
      assert Perform(m, begin, Started) == (m, hydrating);
      LastMove(m, hydrating, p);
      if p.hydration == Hydrated(true) && deps.marketing {
        assert Perform(m, hydrating, p.hydration) == (m, hydrating.(point := Requesting));
        LastMove(m, hydrating.(point := Requesting), p);
      }
    }
  }

  /** A reset leaves no pending work and calls nobody. */
  lemma ResetEndsSo(m: Memory, deps: Deps, p: Ports)
    requires ProperPorts(p)
    ensures Drive(m, Turn(Reset, deps, Begin, None), p) == m.(pending := None)
  {
    var begin := Turn(Reset, deps, Begin, None);
    assert Perform(m, begin, Started) == (m, begin.(point := Resetting));
    LastMove(m, begin.(point := Resetting), p);
  }

  datatype Outcome = Threw | Drafted(approvalId: string) | Posted | Withdrawn | Refused

  class Session {
    var pending: Option<Work>
    var prepared: nat
    var log: seq<Event>

    function View(): Memory
      reads this
    {
      Memory(pending, prepared, log)
    }

    constructor ()
      ensures View() == EMPTY
    {
      pending, prepared, log := None, 0, [];
    }

    method PrepareFacebookPagesPublication(content: string, deps: Deps, ports: Ports) returns (outcome: Outcome)
      requires ProperPorts(ports)
      modifies this
      ensures View() == Drive(old(View()), Turn(Prepare(content), deps, Begin, None), ports)
      ensures PreparationEnds(old(View()), content, deps, ports, View())
      ensures outcome.Drafted? <==> IsDrafted(content, deps, ports)
      ensures outcome.Drafted? ==> outcome.approvalId == ports.request.approvalId
      ensures outcome.Threw? <==> content != "" && (ports.hydration.Throws? ||
                                  (ports.hydration == Hydrated(true) && deps.marketing && ports.request.Throws?))
      ensures outcome.Drafted? || outcome.Threw? || outcome.Refused?
    {
      PreparationEndsSo(View(), content, deps, ports);
      if content == "" {
        return Refused;
      }
      if ports.hydration.Throws? {
        return Threw;
      }
      if !ports.hydration.verified || !deps.marketing {
        return Refused;
      }
      if ports.request.Throws? {
        return Threw;
      }
      var draft := Draft(prepared, ports.request.approvalId, content);
      pending := Some(Work(draft, AwaitingApproval, None));
      prepared := prepared + 1;
      log := log + [Prepared(draft)];
      return Drafted(draft.approvalId);
    }

    method ResolvePendingFacebookPagesPublication(approve: bool, deps: Deps, ports: Ports) returns (outcome: Outcome)
      requires ProperPorts(ports)
      modifies this
      ensures View() == Drive(old(View()), Turn(if approve then Approve else Cancel, deps, Begin, None), ports)
      ensures DecisionEnds(old(View()), approve, deps, ports, View())
      ensures outcome.Posted? <==>
              approve && IsCalled(old(View()), deps, ports) && ports.execution.Executed? && ports.execution.succeeded
      ensures outcome.Threw? <==> DecisionThrows(old(View()), approve, deps, ports)
      ensures outcome.Withdrawn? <==> !approve && Decidable(old(View()), deps) && !ports.decision.Throws?
      ensures !outcome.Drafted?
    {
      ghost var before := View();
      outcome := Resolve(approve, deps, ports);
      DecisionEndsSo(before, approve, deps, ports);
      DecisionEndsOneWay(before, approve, deps, ports, View(),
                         Drive(before, Turn(if approve then Approve else Cancel, deps, Begin, None), ports));
    }

    /** The code, one stretch after another. */
    method Resolve(approve: bool, deps: Deps, ports: Ports) returns (outcome: Outcome)
      requires ProperPorts(ports)
      modifies this
      ensures DecisionEnds(old(View()), approve, deps, ports, View())
      ensures outcome.Posted? <==>
              approve && IsCalled(old(View()), deps, ports) && ports.execution.Executed? && ports.execution.succeeded
      ensures outcome.Threw? <==> DecisionThrows(old(View()), approve, deps, ports)
      ensures outcome.Withdrawn? <==> !approve && Decidable(old(View()), deps) && !ports.decision.Throws?
      ensures !outcome.Drafted?
    {
      if pending.None? || pending.value.status != AwaitingApproval || !deps.marketing {
        return Refused;
      }
      var work := pending.value;
      if !approve {
        if ports.decision.Throws? {
          return Threw;
        }
        pending := Some(work.(status := Cancelled));
        return Withdrawn;
      }
      if ports.hydration.Throws? {
        return Threw;
      }
      if !ports.hydration.verified {
        pending := Some(Work(work.draft, Blocked, Some("connection_not_verified")));
        return Refused;
      }
      if ports.decision.Throws? {
        return Threw;
      }
      if !ports.decision.approved {
        return Refused;
      }
      log := log + [Approved(work.draft)];
      if !deps.runtime {
        pending := Some(Work(work.draft, Blocked, Some("runtime_not_configured")));
        return Refused;
      }
      pending := Some(work.(status := Publishing));
      log := log + [Leased(work.draft)];
      if deps.conversation {
        if ports.lease.Throws? {
          return Threw;
        }
      }
      log := log + [Called(work.draft)];
      if ports.execution.Throws? {
        return Threw;
      }
      if !ports.execution.succeeded {
        pending := Some(Work(work.draft, Blocked, Some(ports.execution.code.GetOr("provider_error"))));
        return Refused;
      }
      pending := Some(work.(status := Published));
      log := log + [Succeeded(work.draft)];
      return Posted;
    }
  }
}
