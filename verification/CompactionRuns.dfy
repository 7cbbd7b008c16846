/**
  Runs of one conversation: messages arrive while any number of compactions, renames
  and archivings are between two of their awaits, each holding copies of the record
  that the others may have replaced.

  The stored mark always describes one prefix of the log.  The prefix gets shorter
  exactly when a write is behind the record it replaces: that cannot happen while
  every job holds the turn lock, and it can on the paths that do not take it, which
  are the automatic compaction after a turn and the archive route.
 */
module CompactionRuns {
  import opened Wrappers
  import opened ConversationStore
  import opened Compaction
  import TurnLock

  datatype Kind = Compact | Close | Retitle(title: string)

  /**
    `Read`: the record was read.  `Planned`: so was the log, and there is something to
    save.  `Copied`: `saveCompaction` has read the record again, to spread it.
   */
  datatype Point =
    | Begin
    | Read(record: ConversationRecord)
    | Planned(plan: Plan)
    | Copied(record: ConversationRecord, plan: Plan)
    | Done(folded: nat)
    | Failed

  datatype Job = Job(kind: Kind, point: Point)

  datatype State = State(record: ConversationRecord, log: Log, jobs: seq<Job>)

  datatype Action = Add(message: ConversationMessage) | Start(kind: Kind) | Move(k: nat, now: int)

  predicate Over(point: Point) {
    point.Done? || point.Failed?
  }

  /** Message ids are fresh. */
  predicate Enabled(s: State, a: Action) {
    match a
    case Add(message) => forall i :: 0 <= i < |s.log| ==> s.log[i].id != message.id
    case Start(_) => true
    case Move(k, _) => k < |s.jobs| && !Over(s.jobs[k].point)
  }

  function Saved(copy: ConversationRecord, plan: Plan, now: int): ConversationRecord {
    if plan.Nothing? then copy
    else copy.Compacted(plan.mark.summary, plan.mark.upTo.GetOr(""), plan.mark.count, now)
  }

  function Edited(copy: ConversationRecord, kind: Kind, now: int): ConversationRecord {
    match kind
    case Close => copy.Closed(now)
    case Retitle(title) => copy.(title := title, updatedAt := now)
    case Compact => copy
  }

  /** The record and the point of a job after its next stretch. */
  function Perform(fold: Folding, s: State, job: Job, now: int): (ConversationRecord, Point) {
    match job.point
    case Begin =>
      if job.kind.Compact? && s.record.status != Active then (s.record, Failed) else (s.record, Read(s.record))
    case Read(copy) =>
      if !job.kind.Compact? then (Edited(copy, job.kind, now), Done(0))
      else
        var plan := PlanFor(fold, MarkOf(copy), s.log);
        (s.record, if plan.Nothing? then Done(0) else Planned(plan))
    case Planned(plan) => (s.record, Copied(s.record, plan))
    case Copied(copy, plan) => (Saved(copy, plan, now), Done(if plan.Save? then plan.folded else 0))
    case _ => (s.record, job.point)
  }

  function Apply(fold: Folding, s: State, a: Action): State
    requires Enabled(s, a)
  {
    match a
    case Add(message) =>
      s.(log := s.log + [message], record := s.record.(lastMessageAt := Some(message.createdAt), updatedAt := message.createdAt))
    case Start(kind) => s.(jobs := s.jobs + [Job(kind, Begin)])
    case Move(k, now) =>
      var (record, point) := Perform(fold, s, s.jobs[k], now);
      s.(record := record, jobs := s.jobs[k := s.jobs[k].(point := point)])
  }

  function Next(fold: Folding, s: State, a: Action): State {
    if Enabled(s, a) then Apply(fold, s, a) else s
  }

  function Run(fold: Folding, s: State, actions: seq<Action>): State
    decreases |actions|
  {
    if actions == [] then s else Run(fold, Next(fold, s, actions[0]), actions[1..])
  }

  function Fresh(record: ConversationRecord): State {
    State(record, [], [])
  }

  // ----- without the lock: one prefix, each message folded once

  ghost predicate Holds(fold: Folding, log: Log, point: Point) {
    match point
    case Read(copy) => Describes(fold, log, MarkOf(copy))
    case Planned(plan) => plan.Save? && plan.mark.upTo.Some? && Describes(fold, log, plan.mark)
    case Copied(copy, plan) =>
      Describes(fold, log, MarkOf(copy)) && plan.Save? && plan.mark.upTo.Some? && Describes(fold, log, plan.mark)
    case _ => true
  }

  ghost predicate Inv(fold: Folding, s: State) {
    && UniqueIds(s.log)
    && Describes(fold, s.log, MarkOf(s.record))
    && forall k :: 0 <= k < |s.jobs| ==> Holds(fold, s.log, s.jobs[k].point)
  }

  lemma HoldsLonger(fold: Folding, log: Log, message: ConversationMessage, point: Point)
    requires Holds(fold, log, point)
    ensures Holds(fold, log + [message], point)
  {
    match point
    case Read(copy) => DescribesLonger(fold, log, [message], MarkOf(copy));
    case Planned(plan) => DescribesLonger(fold, log, [message], plan.mark);
    case Copied(copy, plan) =>
      DescribesLonger(fold, log, [message], MarkOf(copy));
      DescribesLonger(fold, log, [message], plan.mark);
    case _ =>
  }

  lemma PlannedHolds(fold: Folding, log: Log, copy: ConversationRecord)
    requires UniqueIds(log) && Describes(fold, log, MarkOf(copy))
    ensures var plan := PlanFor(fold, MarkOf(copy), log); plan.Save? ==> Holds(fold, log, Planned(plan))
  {
    PlanDescribes(fold, MarkOf(copy), log);
  }

  lemma PerformHolds(fold: Folding, s: State, job: Job, now: int)
    requires UniqueIds(s.log) && Describes(fold, s.log, MarkOf(s.record)) && Holds(fold, s.log, job.point)
    ensures var (record, point) := Perform(fold, s, job, now);
      Describes(fold, s.log, MarkOf(record)) && Holds(fold, s.log, point)
  {
    match job.point
    case Read(copy) =>
      if job.kind.Compact? {
        PlannedHolds(fold, s.log, copy);
      } else {
        assert MarkOf(Edited(copy, job.kind, now)) == MarkOf(copy);
      }
    case Copied(copy, plan) => assert MarkOf(Saved(copy, plan, now)) == plan.mark;
    case _ =>
  }

  lemma StepKeepsInv(fold: Folding, s: State, a: Action)
    requires Inv(fold, s)
    ensures Inv(fold, Next(fold, s, a))
  {
    if Enabled(s, a) {
      match a
      case Add(message) =>
        DescribesLonger(fold, s.log, [message], MarkOf(s.record));
        forall k | 0 <= k < |s.jobs| ensures Holds(fold, s.log + [message], s.jobs[k].point) {
          HoldsLonger(fold, s.log, message, s.jobs[k].point);
        }
      case Start(_) =>
      case Move(k, now) => PerformHolds(fold, s, s.jobs[k], now);
    }
  }

  lemma {:induction false} RunKeepsInv(fold: Folding, s: State, actions: seq<Action>)
    requires Inv(fold, s)
    ensures Inv(fold, Run(fold, s, actions))
    decreases |actions|
  {
    if actions != [] {
      StepKeepsInv(fold, s, actions[0]);
      RunKeepsInv(fold, Next(fold, s, actions[0]), actions[1..]);
    }
  }

  /** In every interleaving the stored mark describes exactly one prefix of the log. */
  lemma EveryRunDescribesAPrefix(fold: Folding, organizationId: string, title: string, now: int, actions: seq<Action>)
    ensures var s := Run(fold, Fresh(NewRecord(organizationId, title, now)), actions);
      UniqueIds(s.log) && Describes(fold, s.log, MarkOf(s.record))
  {
    var s := Fresh(NewRecord(organizationId, title, now));
    assert Turns([]) == [];
    assert FoldedFrom(fold, [], MarkOf(s.record), []);
    RunKeepsInv(fold, s, actions);
  }

  /** The last folded message tells the prefix. */
  lemma UpToTellsThePrefix(fold: Folding, log: Log, a: Mark, b: Mark)
    requires UniqueIds(log) && Describes(fold, log, a) && Describes(fold, log, b) && a.upTo == b.upTo
    ensures a.count == b.count
  {
    assert a.count > 0 && b.count > 0 ==> log[a.count - 1].id == log[b.count - 1].id;
  }

  // ----- when the prefix gets shorter

  /** The write of a job whose plan, or whose copy of the record, covers less than what is stored by now. */
  predicate Behind(s: State, a: Action) {
    && a.Move? && Enabled(s, a)
    && match s.jobs[a.k].point
       case Copied(_, plan) => plan.Save? && plan.mark.count < s.record.compactionMessageCount
       case Read(copy) => !s.jobs[a.k].kind.Compact? && copy.compactionMessageCount < s.record.compactionMessageCount
       case _ => false
  }

  /** Of all steps exactly the writes that are behind shorten the prefix. */
  lemma StepShrinksIff(fold: Folding, s: State, a: Action)
    requires Inv(fold, s)
    ensures Next(fold, s, a).record.compactionMessageCount < s.record.compactionMessageCount <==> Behind(s, a)
  {
    if Enabled(s, a) && a.Move? {
      var job := s.jobs[a.k];
      assert Holds(fold, s.log, job.point);
      match job.point
      case Read(copy) => assert MarkOf(Edited(copy, job.kind, a.now)) == MarkOf(copy);
      case Copied(copy, plan) => assert MarkOf(Saved(copy, plan, a.now)) == plan.mark;
      case _ =>
    }
  }

  lemma {:induction false} RunOfBoth(fold: Folding, s: State, before: seq<Action>, after: seq<Action>)
    ensures Run(fold, s, before + after) == Run(fold, Run(fold, s, before), after)
    decreases |before|
  {
    if before == [] {
      assert before + after == after;
    } else {
      RunOfBoth(fold, Next(fold, s, before[0]), before[1..], after);
      assert (before + after)[1..] == before[1..] + after;
    }
  }

  /** The state after the first `i` actions. */
  function At(fold: Folding, s: State, actions: seq<Action>, i: nat): State
    requires i <= |actions|
  {
    Run(fold, s, actions[..i])
  }

  lemma AtNext(fold: Folding, s: State, actions: seq<Action>, i: nat)
    requires i < |actions|
    ensures At(fold, s, actions, i + 1) == Next(fold, At(fold, s, actions, i), actions[i])
  {
    RunOfBoth(fold, s, actions[..i], [actions[i]]);
    assert actions[..i + 1] == actions[..i] + [actions[i]] && [actions[i]][1..] == [];
  }

  ghost predicate NoneBehindBefore(fold: Folding, s: State, actions: seq<Action>, n: nat)
    requires n <= |actions|
  {
    forall i :: 0 <= i < n ==> !Behind(At(fold, s, actions, i), actions[i])
  }

  ghost predicate NoneBehind(fold: Folding, s: State, actions: seq<Action>) {
    NoneBehindBefore(fold, s, actions, |actions|)
  }

  ghost predicate NeverShrinks(fold: Folding, s: State, actions: seq<Action>) {
    forall i, j :: 0 <= i <= j <= |actions| ==>
      At(fold, s, actions, i).record.compactionMessageCount <= At(fold, s, actions, j).record.compactionMessageCount
  }

  lemma {:induction false} GrowsBetween(fold: Folding, s: State, actions: seq<Action>, i: nat, j: nat)
    requires Inv(fold, s) && i <= j <= |actions| && NoneBehindBefore(fold, s, actions, j)
    ensures At(fold, s, actions, i).record.compactionMessageCount <= At(fold, s, actions, j).record.compactionMessageCount
    decreases j
  {
    if i < j {
      GrowsBetween(fold, s, actions, i, j - 1);
      AtNext(fold, s, actions, j - 1);
      RunKeepsInv(fold, s, actions[..j - 1]);
      StepShrinksIff(fold, At(fold, s, actions, j - 1), actions[j - 1]);
    }
  }

  /** Over a run of any interleaving the prefix never gets shorter exactly when no write is behind. */
  lemma NeverShrinksIff(fold: Folding, s: State, actions: seq<Action>)
    requires Inv(fold, s)
    ensures NeverShrinks(fold, s, actions) <==> NoneBehind(fold, s, actions)
  {
    if NoneBehind(fold, s, actions) {
      forall i, j | 0 <= i <= j <= |actions|
        ensures At(fold, s, actions, i).record.compactionMessageCount <= At(fold, s, actions, j).record.compactionMessageCount
      {
        GrowsBetween(fold, s, actions, i, j);
      }
    } else {
      var i :| 0 <= i < |actions| && Behind(At(fold, s, actions, i), actions[i]);
      AtNext(fold, s, actions, i);
      RunKeepsInv(fold, s, actions[..i]);
      StepShrinksIff(fold, At(fold, s, actions, i), actions[i]);
      assert At(fold, s, actions, i + 1).record.compactionMessageCount < At(fold, s, actions, i).record.compactionMessageCount;
    }
  }

  // ----- the same, told by who saved what since a job read

  /** How much of the log a job's copy or plan covers, once it has read the record. */
  function Own(point: Point): nat {
    match point
    case Read(copy) => copy.compactionMessageCount
    case Planned(plan) => if plan.Save? then plan.mark.count else 0
    case Copied(_, plan) => if plan.Save? then plan.mark.count else 0
    case _ => 0
  }

  predicate HasRead(s: State, k: nat) {
    k < |s.jobs| && !s.jobs[k].point.Begin? && !Over(s.jobs[k].point)
  }

  /** The step writes the record: a compaction saves, or an edit is stored. */
  predicate WritesRecord(s: State, a: Action) {
    && a.Move? && Enabled(s, a)
    && (s.jobs[a.k].point.Copied? || (s.jobs[a.k].point.Read? && !s.jobs[a.k].kind.Compact?))
  }

  /** Action `w` is the write of a job that had read before action `j`, by which another compaction saved a longer prefix. */
  ghost predicate Overtaken(fold: Folding, s: State, actions: seq<Action>, j: nat, w: nat)
    requires j < w < |actions|
  {
    var early, late := At(fold, s, actions, j), At(fold, s, actions, w);
    && WritesRecord(late, actions[w]) && HasRead(early, actions[w].k)
    && WritesRecord(early, actions[j]) && early.jobs[actions[j].k].point.Copied? && actions[j].k != actions[w].k
    && Own(early.jobs[actions[j].k].point) > Own(late.jobs[actions[w].k].point)
  }

  ghost predicate NoneOvertaken(fold: Folding, s: State, actions: seq<Action>) {
    forall j, w :: 0 <= j < w < |actions| ==> !Overtaken(fold, s, actions, j, w)
  }

  function Stored(fold: Folding, s: State, actions: seq<Action>, i: nat): nat
    requires i <= |actions|
  {
    At(fold, s, actions, i).record.compactionMessageCount
  }

  /** A write stores what the job covers; every other step leaves what is stored. */
  lemma WhatAStepStores(fold: Folding, s: State, a: Action)
    requires Inv(fold, s)
    ensures Next(fold, s, a).record.compactionMessageCount ==
            if WritesRecord(s, a) then Own(s.jobs[a.k].point) else s.record.compactionMessageCount
  {
    if Enabled(s, a) && a.Move? {
      var job := s.jobs[a.k];
      assert Holds(fold, s.log, job.point);
      match job.point
      case Read(copy) => assert MarkOf(Edited(copy, job.kind, a.now)) == MarkOf(copy);
      case Copied(copy, plan) => assert MarkOf(Saved(copy, plan, a.now)) == plan.mark;
      case _ =>
    }
  }

  lemma BehindIsOwnBehind(fold: Folding, s: State, a: Action)
    requires Inv(fold, s)
    ensures Behind(s, a) <==> WritesRecord(s, a) && Own(s.jobs[a.k].point) < s.record.compactionMessageCount
  {
    if WritesRecord(s, a) {
      assert Holds(fold, s.log, s.jobs[a.k].point);
    }
  }

  /** A job goes on with what it covers, or with more once it has planned; it reads what is stored. */
  lemma WhatAJobCovers(fold: Folding, s: State, a: Action, k: nat)
    requires Inv(fold, s) && HasRead(Next(fold, s, a), k)
    ensures HasRead(s, k) ==> Own(s.jobs[k].point) <= Own(Next(fold, s, a).jobs[k].point)
    ensures HasRead(s, k) && Next(fold, s, a).jobs[k].point.Read? ==> Next(fold, s, a).jobs[k].point == s.jobs[k].point
    ensures !HasRead(s, k) ==> Own(Next(fold, s, a).jobs[k].point) == s.record.compactionMessageCount
                               && Next(fold, s, a).jobs[k].point.Read?
    ensures Next(fold, s, a).jobs[k].point.Read? && !HasRead(s, k) ==>
              Next(fold, s, a).record.compactionMessageCount == s.record.compactionMessageCount
  {
    if Enabled(s, a) && a.Move? && a.k == k {
      assert Holds(fold, s.log, s.jobs[k].point);
      if s.jobs[k].point.Read? && s.jobs[k].kind.Compact? {
        PlanDescribes(fold, MarkOf(s.jobs[k].point.record), s.log);
      }
    }
  }

  /** From `r` on the job has read, and at `r` no more was stored than it covers: exactly its copy, if that is all it has. */
  ghost predicate ReadSince(fold: Folding, s: State, actions: seq<Action>, r: nat, i: nat, k: nat)
    requires r <= i <= |actions|
  {
    && (forall h :: r <= h <= i ==> HasRead(At(fold, s, actions, h), k))
    && Stored(fold, s, actions, r) <= Own(At(fold, s, actions, i).jobs[k].point)
    && (At(fold, s, actions, i).jobs[k].point.Read? ==>
          Stored(fold, s, actions, r) == Own(At(fold, s, actions, i).jobs[k].point))
  }

  lemma {:induction false} ReadEarlier(fold: Folding, s: State, actions: seq<Action>, i: nat, k: nat) returns (r: nat)
    requires Inv(fold, s) && s.jobs == [] && i <= |actions| && HasRead(At(fold, s, actions, i), k)
    ensures r <= i && ReadSince(fold, s, actions, r, i, k)
    decreases i
  {
    assert actions[..0] == [];
    AtNext(fold, s, actions, i - 1);
    RunKeepsInv(fold, s, actions[..i - 1]);
    WhatAJobCovers(fold, At(fold, s, actions, i - 1), actions[i - 1], k);
    if HasRead(At(fold, s, actions, i - 1), k) {
      r := ReadEarlier(fold, s, actions, i - 1, k);
    } else {
      r := i;
    }
  }

  lemma {:induction false} FirstBehind(fold: Folding, s: State, actions: seq<Action>, n: nat) returns (w: nat)
    requires n <= |actions| && !NoneBehindBefore(fold, s, actions, n)
    ensures w < n && NoneBehindBefore(fold, s, actions, w) && Behind(At(fold, s, actions, w), actions[w])
    decreases n
  {
    if NoneBehindBefore(fold, s, actions, n - 1) {
      w := n - 1;
    } else {
      w := FirstBehind(fold, s, actions, n - 1);
    }
  }

  /** Where what is stored rises above `n`. */
  lemma {:induction false} Crossing(fold: Folding, s: State, actions: seq<Action>, r: nat, w: nat, n: nat) returns (j: nat)
    requires r <= w <= |actions| && Stored(fold, s, actions, r) <= n < Stored(fold, s, actions, w)
    ensures r <= j < w && Stored(fold, s, actions, j) <= n < Stored(fold, s, actions, j + 1)
    decreases w
  {
    if Stored(fold, s, actions, w - 1) <= n {
      j := w - 1;
    } else {
      j := Crossing(fold, s, actions, r, w - 1, n);
    }
  }

  /** In a run that has not shrunk, only a compaction stores more than was stored. */
  lemma OnlyCompactionsRaise(fold: Folding, s: State, actions: seq<Action>, j: nat)
    requires Inv(fold, s) && s.jobs == [] && j < |actions| && NoneBehindBefore(fold, s, actions, j)
    requires Stored(fold, s, actions, j) < Stored(fold, s, actions, j + 1)
    ensures var at := At(fold, s, actions, j);
      && WritesRecord(at, actions[j]) && at.jobs[actions[j].k].point.Copied?
      && Stored(fold, s, actions, j + 1) == Own(at.jobs[actions[j].k].point)
      && !HasRead(At(fold, s, actions, j + 1), actions[j].k)
  {
    var at := At(fold, s, actions, j);
    AtNext(fold, s, actions, j);
    RunKeepsInv(fold, s, actions[..j]);
    WhatAStepStores(fold, at, actions[j]);
    if at.jobs[actions[j].k].point.Read? {
      var r := ReadEarlier(fold, s, actions, j, actions[j].k);
      GrowsBetween(fold, s, actions, r, j);
    }
  }

  /** The first write that is behind was overtaken. */
  lemma FirstBehindIsOvertaken(fold: Folding, s: State, actions: seq<Action>, w: nat) returns (j: nat)
    requires Inv(fold, s) && s.jobs == [] && w < |actions| && NoneBehindBefore(fold, s, actions, w)
    requires Behind(At(fold, s, actions, w), actions[w])
    ensures j < w && Overtaken(fold, s, actions, j, w)
  {
    var late, k := At(fold, s, actions, w), actions[w].k;
    RunKeepsInv(fold, s, actions[..w]);
    BehindIsOwnBehind(fold, late, actions[w]);
    var r := ReadEarlier(fold, s, actions, w, k);
    j := Crossing(fold, s, actions, r, w, Own(late.jobs[k].point));
    OnlyCompactionsRaise(fold, s, actions, j);
    assert HasRead(At(fold, s, actions, j), k) && HasRead(At(fold, s, actions, j + 1), k);
  }

  lemma OvertakenShrinks(fold: Folding, s: State, actions: seq<Action>, j: nat, w: nat)
    requires Inv(fold, s) && j < w < |actions| && Overtaken(fold, s, actions, j, w)
    ensures Stored(fold, s, actions, w + 1) < Stored(fold, s, actions, j + 1)
  {
    AtNext(fold, s, actions, j);
    AtNext(fold, s, actions, w);
    RunKeepsInv(fold, s, actions[..j]);
    RunKeepsInv(fold, s, actions[..w]);
    WhatAStepStores(fold, At(fold, s, actions, j), actions[j]);
    WhatAStepStores(fold, At(fold, s, actions, w), actions[w]);
  }

  /**
    From a record nobody is at work on, the prefix never gets shorter exactly when no job
    writes after another compaction, of a longer prefix than its own, has saved since it read.
   */
  lemma NeverShrinksIffNoneOvertaken(fold: Folding, s: State, actions: seq<Action>)
    requires Inv(fold, s) && s.jobs == []
    ensures NeverShrinks(fold, s, actions) <==> NoneOvertaken(fold, s, actions)
  {
    NeverShrinksIff(fold, s, actions);
    if !NoneBehind(fold, s, actions) {
      var w := FirstBehind(fold, s, actions, |actions|);
      var j := FirstBehindIsOvertaken(fold, s, actions, w);
    }
    if !NoneOvertaken(fold, s, actions) {
      var j, w :| 0 <= j < w < |actions| && Overtaken(fold, s, actions, j, w);
      OvertakenShrinks(fold, s, actions, j, w);
      var i, h := j + 1, w + 1;
      assert At(fold, s, actions, h).record.compactionMessageCount < At(fold, s, actions, i).record.compactionMessageCount;
    }
  }

  // ----- runs in which a write is behind

  /** Job `k` goes on for `n` stretches with nothing in between. */
  function Advance(fold: Folding, s: State, k: nat, now: int, n: nat): State {
    if n == 0 then s else Next(fold, Advance(fold, s, k, now, n - 1), Move(k, now))
  }

  lemma {:induction false} AdvanceKeepsInv(fold: Folding, s: State, k: nat, now: int, n: nat)
    requires Inv(fold, s)
    ensures Inv(fold, Advance(fold, s, k, now, n))
    decreases n
  {
    if n > 0 {
      AdvanceKeepsInv(fold, s, k, now, n - 1);
      StepKeepsInv(fold, Advance(fold, s, k, now, n - 1), Move(k, now));
    }
  }

  lemma CompactionReads(fold: Folding, s: State, k: nat, now: int)
    requires k < |s.jobs| && s.jobs[k] == Job(Compact, Begin) && s.record.status == Active
    requires PlanFor(fold, MarkOf(s.record), s.log).Save?
    ensures Advance(fold, s, k, now, 2) ==
            s.(jobs := s.jobs[k := Job(Compact, Planned(PlanFor(fold, MarkOf(s.record), s.log)))])
  {
    assert Advance(fold, s, k, now, 1) == s.(jobs := s.jobs[k := Job(Compact, Read(s.record))]);
  }

  lemma CompactionSaves(fold: Folding, s: State, k: nat, now: int, plan: Plan)
    requires k < |s.jobs| && s.jobs[k] == Job(Compact, Planned(plan)) && plan.Save?
    ensures Advance(fold, s, k, now, 2).record.compactionMessageCount == plan.mark.count
  {
    assert Advance(fold, s, k, now, 1) == s.(jobs := s.jobs[k := Job(Compact, Copied(s.record, plan))]);
  }

  lemma AdvanceTwice(fold: Folding, s: State, k: nat, now: int)
    ensures Advance(fold, s, k, now, 4) == Advance(fold, Advance(fold, s, k, now, 2), k, now, 2)
  {
    assert Advance(fold, s, k, now, 3) == Advance(fold, Advance(fold, s, k, now, 2), k, now, 1);
  }

  lemma {:induction false} AdvanceLeavesOthers(fold: Folding, s: State, k: nat, now: int, n: nat, j: nat)
    requires j < |s.jobs| && j != k
    ensures var t := Advance(fold, s, k, now, n); |t.jobs| == |s.jobs| && t.jobs[j] == s.jobs[j]
    decreases n
  {
    if n > 0 {
      AdvanceLeavesOthers(fold, s, k, now, n - 1, j);
    }
  }

  // ----- a job that runs alone

  /** A message is appended and its time noted. */
  lemma PostIsNoted(fold: Folding, s: State, message: ConversationMessage)
    requires Enabled(s, Add(message))
    ensures var t := Next(fold, s, Add(message));
      && t.log == s.log + [message] && t.jobs == s.jobs
      && Wrote(AddMessage(0, message), 0, s.record, t.record)
  {
  }

  /** An edit that nothing comes between archives or renames, as the store's own operation does. */
  lemma EditAlone(fold: Folding, s: State, k: nat, now: int)
    requires k < |s.jobs| && s.jobs[k].point.Begin? && !s.jobs[k].kind.Compact?
    ensures var kind, t := s.jobs[k].kind, Advance(fold, s, k, now, 2);
      && t.log == s.log && t.jobs == s.jobs[k := Job(kind, Done(0))]
      && (kind.Close? ==> Wrote(Archive(s.record.organizationId, 0, now), 0, s.record, t.record))
      && (kind.Retitle? ==> Wrote(Rename(s.record.organizationId, 0, kind.title, now), 0, s.record, t.record))
  {
    assert Advance(fold, s, k, now, 1) == s.(jobs := s.jobs[k := Job(s.jobs[k].kind, Read(s.record))]);
  }

  lemma CompactionEnds(fold: Folding, s: State, k: nat, now: int, plan: Plan)
    requires k < |s.jobs| && s.jobs[k] == Job(Compact, Planned(plan)) && plan.Save?
    ensures var t := Advance(fold, s, k, now, 2);
      && t.log == s.log && t.jobs == s.jobs[k := Job(Compact, Done(plan.folded))]
      && Wrote(SaveCompaction(s.record.organizationId, 0, plan.mark.summary, plan.mark.upTo.GetOr(""), plan.mark.count, now), 0,
               s.record, t.record)
  {
    assert Advance(fold, s, k, now, 1) == s.(jobs := s.jobs[k := Job(Compact, Copied(s.record, plan))]);
  }

  /** A compaction that nothing comes between fails for an archived record, and else saves its plan if there is one. */
  lemma CompactionAlone(fold: Folding, s: State, k: nat, now: int)
    requires k < |s.jobs| && s.jobs[k] == Job(Compact, Begin)
    ensures var plan, t := PlanFor(fold, MarkOf(s.record), s.log), Advance(fold, s, k, now, 4);
      && t.log == s.log
      && (s.record.status == Archived ==> t.record == s.record && t.jobs == s.jobs[k := Job(Compact, Failed)])
      && (s.record.status == Active && plan.Nothing? ==> t.record == s.record && t.jobs == s.jobs[k := Job(Compact, Done(0))])
      && (s.record.status == Active && plan.Save? ==>
            && t.jobs == s.jobs[k := Job(Compact, Done(plan.folded))]
            && Wrote(SaveCompaction(s.record.organizationId, 0, plan.mark.summary, plan.mark.upTo.GetOr(""), plan.mark.count, now),
                     0, s.record, t.record))
  {
    AdvanceTwice(fold, s, k, now);
    if s.record.status == Archived {
      CompactionRefused(fold, s, k, now);
    } else if PlanFor(fold, MarkOf(s.record), s.log).Nothing? {
      CompactionIdle(fold, s, k, now);
    } else {
      CompactionReads(fold, s, k, now);
      CompactionEnds(fold, Advance(fold, s, k, now, 2), k, now, PlanFor(fold, MarkOf(s.record), s.log));
    }
  }

  lemma CompactionRefused(fold: Folding, s: State, k: nat, now: int)
    requires k < |s.jobs| && s.jobs[k] == Job(Compact, Begin) && s.record.status == Archived
    ensures Advance(fold, s, k, now, 4) == s.(jobs := s.jobs[k := Job(Compact, Failed)])
  {
    var t := s.(jobs := s.jobs[k := Job(Compact, Failed)]);
    assert Advance(fold, s, k, now, 1) == t;
    OverStays(fold, t, k, now, 3);
    AdvanceOnce(fold, s, k, now, 3);
  }

  lemma CompactionIdle(fold: Folding, s: State, k: nat, now: int)
    requires k < |s.jobs| && s.jobs[k] == Job(Compact, Begin) && s.record.status == Active
    requires PlanFor(fold, MarkOf(s.record), s.log).Nothing?
    ensures Advance(fold, s, k, now, 4) == s.(jobs := s.jobs[k := Job(Compact, Done(0))])
  {
    var t := s.(jobs := s.jobs[k := Job(Compact, Done(0))]);
    assert Advance(fold, s, k, now, 1) == s.(jobs := s.jobs[k := Job(Compact, Read(s.record))]);
    assert Advance(fold, s, k, now, 2) == t;
    OverStays(fold, t, k, now, 2);
    AdvanceTwice(fold, s, k, now);
  }

  lemma {:induction false} OverStays(fold: Folding, s: State, k: nat, now: int, n: nat)
    requires k < |s.jobs| && Over(s.jobs[k].point)
    ensures Advance(fold, s, k, now, n) == s
  {
    if n > 0 {
      OverStays(fold, s, k, now, n - 1);
    }
  }

  lemma {:induction false} AdvanceOnce(fold: Folding, s: State, k: nat, now: int, n: nat)
    ensures Advance(fold, s, k, now, n + 1) == Advance(fold, Advance(fold, s, k, now, 1), k, now, n)
  {
    if n > 0 {
      AdvanceOnce(fold, s, k, now, n - 1);
    }
  }

  // ----- two jobs

  /** A renaming or archiving that read the record before an uninterrupted compaction undoes the compaction. */
  lemma StaleEditUndoesACompaction(fold: Folding, s: State, kind: Kind, now: int)
    requires Inv(fold, s) && s.record.status == Active && s.jobs == [Job(kind, Begin), Job(Compact, Begin)] && !kind.Compact?
    requires |s.log| > s.record.compactionMessageCount + COMPACTION_RECENT_VERBATIM
    ensures var compacted := Advance(fold, Next(fold, s, Move(0, now)), 1, now, 4);
      && compacted.record.compactionMessageCount > s.record.compactionMessageCount
      && Next(fold, compacted, Move(0, now)).record.compactionMessageCount == s.record.compactionMessageCount
  {
    var early := Next(fold, s, Move(0, now));
    assert s.jobs[0] == Job(kind, Begin);
    assert early == s.(jobs := s.jobs[0 := Job(kind, Read(s.record))]);
    PlanDescribes(fold, MarkOf(s.record), s.log);
    var plan := PlanFor(fold, MarkOf(s.record), s.log);
    CompactionReads(fold, early, 1, now);
    AdvanceTwice(fold, early, 1, now);
    CompactionSaves(fold, Advance(fold, early, 1, now, 2), 1, now, plan);
    AdvanceLeavesOthers(fold, early, 1, now, 4, 0);
    var compacted := Advance(fold, early, 1, now, 4);
    assert compacted.jobs[0] == Job(kind, Read(s.record));
    assert MarkOf(Edited(s.record, kind, now)) == MarkOf(s.record);
  }

  /** A compaction that read the log before another one saves brings back its shorter prefix. */
  lemma StaleCompactionShrinksThePrefix(fold: Folding, s: State, message: ConversationMessage, now: int)
    requires Inv(fold, s) && s.record.status == Active && s.jobs == [Job(Compact, Begin), Job(Compact, Begin)]
    requires |s.log| > s.record.compactionMessageCount + COMPACTION_RECENT_VERBATIM && Enabled(s, Add(message))
    ensures var early := Next(fold, Advance(fold, s, 0, now, 2), Add(message));
      var middle := Advance(fold, early, 1, now, 4);
      var late := Advance(fold, middle, 0, now, 2);
      late.record.compactionMessageCount < middle.record.compactionMessageCount
  {
    PlanDescribes(fold, MarkOf(s.record), s.log);
    CompactionReads(fold, s, 0, now);
    AdvanceKeepsInv(fold, s, 0, now, 2);
    var early := Next(fold, Advance(fold, s, 0, now, 2), Add(message));
    StepKeepsInv(fold, Advance(fold, s, 0, now, 2), Add(message));
    PlanDescribes(fold, MarkOf(early.record), early.log);
    CompactionReads(fold, early, 1, now);
    AdvanceTwice(fold, early, 1, now);
    CompactionSaves(fold, Advance(fold, early, 1, now, 2), 1, now, PlanFor(fold, MarkOf(early.record), early.log));
    AdvanceLeavesOthers(fold, early, 1, now, 4, 0);
    CompactionSaves(fold, Advance(fold, early, 1, now, 4), 0, now, PlanFor(fold, MarkOf(s.record), s.log));
  }

  // ----- under the turn lock

  /** Job `k` is the action of call `k` of the lock; messages are added whether or not it is held. */
  datatype System = System(lock: TurnLock.State, state: State)

  datatype Event = Post(message: ConversationMessage) | Arrive(kind: Kind) | Lock(step: TurnLock.Action) | Proceed(k: nat, now: int)

  predicate CanHappen(sys: System, e: Event) {
    match e
    case Post(message) => Enabled(sys.state, Add(message))
    case Arrive(_) => true
    case Lock(step) =>
      TurnLock.Enabled(sys.lock, step) && !step.Arrive?
      && (step.Finish? ==> step.k < |sys.state.jobs| && Over(sys.state.jobs[step.k].point))
    case Proceed(k, now) =>
      Enabled(sys.state, Move(k, now)) && k < |sys.lock.calls| && sys.lock.calls[k].phase == TurnLock.Running
  }

  function Happen(fold: Folding, sys: System, e: Event): System {
    if !CanHappen(sys, e) then sys
    else
      match e
      case Post(message) => sys.(state := Apply(fold, sys.state, Add(message)))
      case Arrive(kind) =>
        System(TurnLock.Apply(sys.lock, TurnLock.Arrive), Apply(fold, sys.state, Start(kind)))
      case Lock(step) => sys.(lock := TurnLock.Apply(sys.lock, step))
      case Proceed(k, now) => sys.(state := Apply(fold, sys.state, Move(k, now)))
  }

  function History(fold: Folding, sys: System, events: seq<Event>): System
    decreases |events|
  {
    if events == [] then sys else History(fold, Happen(fold, sys, events[0]), events[1..])
  }

  function Folded(point: Point): nat {
    if point.Done? then point.folded else 0
  }

  /** The messages reported as folded, over all jobs. */
  function TotalFolded(jobs: seq<Job>): nat {
    if jobs == [] then 0 else Folded(jobs[0].point) + TotalFolded(jobs[1..])
  }

  /** A job under the lock has seen the record as it still is. */
  predicate Current(record: ConversationRecord, point: Point) {
    match point
    case Read(copy) => MarkOf(copy) == MarkOf(record)
    case Planned(plan) => plan.Save? && plan.mark.count == record.compactionMessageCount + plan.folded
    case Copied(_, plan) => plan.Save? && plan.mark.count == record.compactionMessageCount + plan.folded
    case _ => true
  }

  ghost predicate Guarded(sys: System, k: nat)
    requires k < |sys.state.jobs| == |sys.lock.calls|
  {
    var point, phase := sys.state.jobs[k].point, sys.lock.calls[k].phase;
    && (phase == TurnLock.Waiting ==> point.Begin?)
    && (phase == TurnLock.Done ==> Over(point))
    && Current(sys.state.record, point)
  }

  ghost predicate LockedInv(fold: Folding, sys: System) {
    && TurnLock.Inv(sys.lock) && Inv(fold, sys.state)
    && |sys.lock.calls| == |sys.state.jobs|
    && (forall k :: 0 <= k < |sys.state.jobs| ==> Guarded(sys, k))
    && TotalFolded(sys.state.jobs) == sys.state.record.compactionMessageCount
  }

  lemma {:induction false} TotalAfterUpdate(jobs: seq<Job>, k: nat, job: Job)
    requires k < |jobs|
    ensures TotalFolded(jobs[k := job]) == TotalFolded(jobs) - Folded(jobs[k].point) + Folded(job.point)
    decreases k
  {
    if k == 0 {
      assert jobs[0 := job][1..] == jobs[1..];
    } else {
      TotalAfterUpdate(jobs[1..], k - 1, job);
      assert jobs[k := job][1..] == jobs[1..][k - 1 := job];
    }
  }

  lemma {:induction false} TotalAfterStart(jobs: seq<Job>, kind: Kind)
    ensures TotalFolded(jobs + [Job(kind, Begin)]) == TotalFolded(jobs)
    decreases |jobs|
  {
    if jobs == [] {
      assert (jobs + [Job(kind, Begin)])[1..] == [];
    } else {
      TotalAfterStart(jobs[1..], kind);
      assert (jobs + [Job(kind, Begin)])[1..] == jobs[1..] + [Job(kind, Begin)];
    }
  }

  /** What a stretch folds is what the stored prefix grows by. */
  lemma PerformGrows(fold: Folding, s: State, job: Job, now: int)
    requires UniqueIds(s.log) && Describes(fold, s.log, MarkOf(s.record)) && Holds(fold, s.log, job.point)
    requires Current(s.record, job.point) && !Over(job.point)
    ensures var (record, point) := Perform(fold, s, job, now);
      Current(record, point) && record.compactionMessageCount == s.record.compactionMessageCount + Folded(point)
  {
    match job.point
    case Read(copy) =>
      if job.kind.Compact? {
        PlanDescribes(fold, MarkOf(copy), s.log);
      } else {
        assert MarkOf(Edited(copy, job.kind, now)) == MarkOf(copy);
      }
    case Copied(copy, plan) => assert MarkOf(Saved(copy, plan, now)) == plan.mark;
    case _ =>
  }

  lemma ProceedKeepsInv(fold: Folding, sys: System, k: nat, now: int)
    requires LockedInv(fold, sys) && CanHappen(sys, Proceed(k, now))
    ensures LockedInv(fold, Happen(fold, sys, Proceed(k, now)))
  {
    var next, s := Happen(fold, sys, Proceed(k, now)), sys.state;
    assert Guarded(sys, k);
    StepKeepsInv(fold, s, Move(k, now));
    PerformGrows(fold, s, s.jobs[k], now);
    TotalAfterUpdate(s.jobs, k, next.state.jobs[k]);
    forall j | 0 <= j < |next.state.jobs| ensures Guarded(next, j) {
      assert Guarded(sys, j);
      if j != k && sys.lock.calls[j].phase == TurnLock.Running {
        TurnLock.OneRunning(sys.lock, j, k);
      }
    }
  }

  lemma PostKeepsInv(fold: Folding, sys: System, message: ConversationMessage)
    requires LockedInv(fold, sys) && CanHappen(sys, Post(message))
    ensures LockedInv(fold, Happen(fold, sys, Post(message)))
  {
    StepKeepsInv(fold, sys.state, Add(message));
    var next := Happen(fold, sys, Post(message));
    forall j | 0 <= j < |next.state.jobs| ensures Guarded(next, j) {
      assert Guarded(sys, j);
    }
  }

  lemma ArriveKeepsInv(fold: Folding, sys: System, kind: Kind)
    requires LockedInv(fold, sys)
    ensures LockedInv(fold, Happen(fold, sys, Arrive(kind)))
  {
    StepKeepsInv(fold, sys.state, Start(kind));
    TurnLock.StepKeepsInv(sys.lock, TurnLock.Arrive);
    TotalAfterStart(sys.state.jobs, kind);
    var next := Happen(fold, sys, Arrive(kind));
    forall j | 0 <= j < |next.state.jobs| ensures Guarded(next, j) {
      assert j < |sys.state.jobs| ==> Guarded(sys, j);
    }
  }

  lemma HappenKeepsInv(fold: Folding, sys: System, e: Event)
    requires LockedInv(fold, sys)
    ensures LockedInv(fold, Happen(fold, sys, e))
  {
    if CanHappen(sys, e) {
      match e
      case Post(message) => PostKeepsInv(fold, sys, message);
      case Arrive(kind) => ArriveKeepsInv(fold, sys, kind);
      case Lock(step) =>
        TurnLock.StepKeepsInv(sys.lock, step);
        var next := Happen(fold, sys, e);
        forall j | 0 <= j < |next.state.jobs| ensures Guarded(next, j) {
          assert Guarded(sys, j);
        }
      case Proceed(k, now) => ProceedKeepsInv(fold, sys, k, now);
    }
  }

  /** The lock rules out that a write is behind. */
  lemma NoneBehindUnderLock(fold: Folding, sys: System, k: nat, now: int)
    requires LockedInv(fold, sys)
    ensures !Behind(sys.state, Move(k, now))
  {
    if k < |sys.state.jobs| {
      assert Guarded(sys, k);
      assert MarkOf(sys.state.record).count == sys.state.record.compactionMessageCount;
    }
  }

  lemma HappenGrows(fold: Folding, sys: System, e: Event)
    requires LockedInv(fold, sys)
    ensures sys.state.record.compactionMessageCount <= Happen(fold, sys, e).state.record.compactionMessageCount
  {
    if CanHappen(sys, e) && e.Proceed? {
      NoneBehindUnderLock(fold, sys, e.k, e.now);
      StepShrinksIff(fold, sys.state, Move(e.k, e.now));
    }
  }

  lemma {:induction false} HistoryGrows(fold: Folding, sys: System, events: seq<Event>)
    requires LockedInv(fold, sys)
    ensures LockedInv(fold, History(fold, sys, events))
    ensures sys.state.record.compactionMessageCount <= History(fold, sys, events).state.record.compactionMessageCount
    decreases |events|
  {
    if events != [] {
      HappenKeepsInv(fold, sys, events[0]);
      HappenGrows(fold, sys, events[0]);
      HistoryGrows(fold, Happen(fold, sys, events[0]), events[1..]);
    }
  }

  function NewSystem(organizationId: string, title: string, now: int): System {
    System(TurnLock.INITIAL, Fresh(NewRecord(organizationId, title, now)))
  }

  lemma {:induction false} HistoryOfBoth(fold: Folding, sys: System, before: seq<Event>, after: seq<Event>)
    ensures History(fold, sys, before + after) == History(fold, History(fold, sys, before), after)
    decreases |before|
  {
    if before == [] {
      assert before + after == after;
    } else {
      HistoryOfBoth(fold, Happen(fold, sys, before[0]), before[1..], after);
      assert (before + after)[1..] == before[1..] + after;
    }
  }

  /** Under the lock the stored prefix only grows, and the folded messages reported add up to its length. */
  lemma PrefixGrowsUnderLock(
      fold: Folding, organizationId: string, title: string, now: int, before: seq<Event>, after: seq<Event>)
    ensures var start := NewSystem(organizationId, title, now);
      var earlier, later := History(fold, start, before).state, History(fold, start, before + after).state;
      && earlier.record.compactionMessageCount <= later.record.compactionMessageCount
      && TotalFolded(earlier.jobs) == earlier.record.compactionMessageCount
      && TotalFolded(later.jobs) == later.record.compactionMessageCount
      && Describes(fold, later.log, MarkOf(later.record))
  {
    var start := NewSystem(organizationId, title, now);
    EveryRunDescribesAPrefix(fold, organizationId, title, now, []);
    HistoryGrows(fold, start, before);
    HistoryGrows(fold, History(fold, start, before), after);
    HistoryOfBoth(fold, start, before, after);
  }
}
