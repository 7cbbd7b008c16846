/**
  Incremental compaction of a conversation: everything but the last ten messages is
  folded into the stored summary, only what was not folded before, and the log keeps
  every message.

  `PlanFor` is the computation between reading and saving, from what the record says
  (its mark) and the log.
 */
module Compaction {
  import opened Wrappers
  import opened ConversationStore
  import Summary

  const COMPACTION_RECENT_VERBATIM := 10

  /** `canonicalSummary`, from the previous summary and the new messages. */
  type Folding = (Summary.Text, seq<Summary.Message>) -> Summary.Text

  // ----- what is folded

  datatype Halves = Halves(older: Log, recent: Log)

  function SplitForCompaction(messages: Log, keepRecent: nat): (halves: Halves)
    ensures halves.older + halves.recent == messages
    ensures |halves.recent| == if |messages| < keepRecent then |messages| else keepRecent
  {
    if |messages| <= keepRecent then Halves([], messages)
    else Halves(messages[..|messages| - keepRecent], messages[|messages| - keepRecent..])
  }

  type Index = map<MessageId, nat>

  /** `new Map(messages.map((message, index) => [message.id, index]))`: the last of several equal ids counts. */
  function IndexById(messages: Log): Index {
    if messages == [] then map[]
    else IndexById(messages[..|messages| - 1])[messages[|messages| - 1].id := |messages| - 1]
  }

  function Position(index: Index, id: MessageId, default: int): int {
    if id in index then index[id] else default
  }

  function PriorIndex(index: Index, upTo: Option<MessageId>): int {
    if upTo.None? then -1 else Position(index, upTo.value, -1)
  }

  /** `older.filter(...)`, of the first `n`: those that come after the prior index. */
  function After(index: Index, older: Log, priorIndex: int, n: nat): Log
    requires n <= |older|
  {
    if n == 0 then []
    else After(index, older, priorIndex, n - 1)
         + if Position(index, older[n - 1].id, -1) > priorIndex then [older[n - 1]] else []
  }

  function Turns(messages: Log): (turns: seq<Summary.Message>)
    ensures |turns| == |messages|
  {
    seq(|messages|, i requires 0 <= i < |messages| => messages[i].Turn())
  }

  /** What the record says of the log: its summary, the last message folded, and how many were. */
  datatype Mark = Mark(summary: Summary.Text, upTo: Option<MessageId>, count: nat)

  function MarkOf(record: ConversationRecord): Mark {
    Mark(record.summary, record.compactedUpTo, record.compactionMessageCount)
  }

  datatype Plan = Nothing | Save(mark: Mark, folded: nat)

  function PlanWith(fold: Folding, mark: Mark, older: Log, index: Index): Plan {
    var priorIndex := PriorIndex(index, mark.upTo);
    var newOlder := After(index, older, priorIndex, |older|);
    if newOlder == [] then Nothing
    else
      var last := newOlder[|newOlder| - 1];
      var count := Position(index, last.id, priorIndex) + 1;
      Save(Mark(fold(mark.summary, Turns(newOlder)), Some(last.id), if count < 0 then 0 else count),
           |newOlder|)
  }

  function PlanFor(fold: Folding, mark: Mark, messages: Log): Plan {
    PlanWith(fold, mark, SplitForCompaction(messages, COMPACTION_RECENT_VERBATIM).older, IndexById(messages))
  }

  // ----- what a mark means

  ghost predicate UniqueIds(log: Log) {
    forall i, j :: 0 <= i < |log| && 0 <= j < |log| && log[i].id == log[j].id ==> i == j
  }

  function Flatten(batches: seq<seq<Summary.Message>>): seq<Summary.Message> {
    if batches == [] then [] else Flatten(batches[..|batches| - 1]) + batches[|batches| - 1]
  }

  function FoldAll(fold: Folding, batches: seq<seq<Summary.Message>>): Summary.Text {
    if batches == [] then [] else fold(FoldAll(fold, batches[..|batches| - 1]), batches[|batches| - 1])
  }

  /** The batches, folded one after another, are the first `count` messages of the log, each once. */
  ghost predicate FoldedFrom(fold: Folding, log: Log, mark: Mark, batches: seq<seq<Summary.Message>>) {
    && mark.count <= |log|
    && Flatten(batches) == Turns(log[..mark.count])
    && (forall i :: 0 <= i < |batches| ==> batches[i] != [])
    && mark.summary == FoldAll(fold, batches)
    && (mark.count == 0 <==> mark.upTo.None?)
    && (mark.count > 0 ==> mark.upTo == Some(log[mark.count - 1].id))
  }

  ghost predicate Describes(fold: Folding, log: Log, mark: Mark) {
    exists batches :: FoldedFrom(fold, log, mark, batches)
  }

  lemma DescribesLonger(fold: Folding, log: Log, more: Log, mark: Mark)
    requires Describes(fold, log, mark)
    ensures Describes(fold, log + more, mark)
  {
    var batches :| FoldedFrom(fold, log, mark, batches);
    assert (log + more)[..mark.count] == log[..mark.count];
    assert FoldedFrom(fold, log + more, mark, batches);
  }

  ghost predicate Indexes(index: Index, messages: Log) {
    forall k :: 0 <= k < |messages| ==> messages[k].id in index && index[messages[k].id] == k
  }

  /** With unique ids the index holds every message at its own position. */
  lemma {:induction false} IndexByIdIndexes(messages: Log)
    requires UniqueIds(messages)
    ensures Indexes(IndexById(messages), messages)
    decreases |messages|
  {
    if messages != [] {
      IndexByIdIndexes(messages[..|messages| - 1]);
    }
  }

  lemma {:induction false} AfterIsSuffix(index: Index, older: Log, prior: int, n: nat)
    requires Indexes(index, older) && n <= |older| && -1 <= prior
    ensures After(index, older, prior, n) == if prior + 1 <= n then older[prior + 1..n] else []
    decreases n
  {
    if n > 0 {
      AfterIsSuffix(index, older, prior, n - 1);
    }
  }

  /** How many messages are old enough to fold. */
  function OldEnough(messages: Log): nat {
    if |messages| <= COMPACTION_RECENT_VERBATIM then 0 else |messages| - COMPACTION_RECENT_VERBATIM
  }

  lemma PlanWithIs(fold: Folding, mark: Mark, older: Log, index: Index)
    requires Indexes(index, older) && PriorIndex(index, mark.upTo) == mark.count - 1
    ensures PlanWith(fold, mark, older, index) ==
            if |older| <= mark.count then Nothing
            else Save(Mark(fold(mark.summary, Turns(older[mark.count..])), Some(older[|older| - 1].id), |older|),
                      |older| - mark.count)
  {
    AfterIsSuffix(index, older, mark.count - 1, |older|);
    if |older| > mark.count {
      assert After(index, older, mark.count - 1, |older|) == older[mark.count..];
      assert older[|older| - 1].id in index;
    }
  }

  lemma PlanIs(fold: Folding, mark: Mark, messages: Log)
    requires UniqueIds(messages) && Describes(fold, messages, mark)
    ensures var older := messages[..OldEnough(messages)];
      PlanFor(fold, mark, messages) ==
      if |older| <= mark.count then Nothing
      else Save(Mark(fold(mark.summary, Turns(older[mark.count..])), Some(older[|older| - 1].id), |older|),
                |older| - mark.count)
  {
    IndexByIdIndexes(messages);
    assert SplitForCompaction(messages, COMPACTION_RECENT_VERBATIM).older == messages[..OldEnough(messages)];
    PlanWithIs(fold, mark, messages[..OldEnough(messages)], IndexById(messages));
  }

  /** A mark at no message of the log, and of whatever count, has everything but the last ten folded again. */
  lemma {:induction false} UnknownMarkFoldsAll(fold: Folding, mark: Mark, older: Log, recent: Log)
    requires |recent| == 10 || (|recent| < 10 && older == [])
    requires UniqueIds(older + recent)
    requires mark.upTo.Some? ==> forall i :: 0 <= i < |older + recent| ==> (older + recent)[i].id != mark.upTo.value
    ensures PlanFor(fold, mark, older + recent) ==
            if older == [] then Nothing
            else Save(Mark(fold(mark.summary, Turns(older)), Some(older[|older| - 1].id), |older|), |older|)
  {
    var messages := older + recent;
    IndexByIdIndexes(messages);
    UnknownIsNotIndexed(messages, mark.upTo);
    assert SplitForCompaction(messages, COMPACTION_RECENT_VERBATIM).older == older;
    assert forall k :: 0 <= k < |older| ==> messages[k] == older[k];
    PlanWithIs(fold, mark.(count := 0), older, IndexById(messages));
    CountIsNotRead(fold, mark, older, IndexById(messages));
    assert older[0..] == older;
  }

  /** What is planned does not depend on how many messages the mark says are folded. */
  lemma CountIsNotRead(fold: Folding, mark: Mark, older: Log, index: Index)
    ensures PlanWith(fold, mark.(count := 0), older, index) == PlanWith(fold, mark, older, index)
  {
  }

  lemma {:induction false} UnknownIsNotIndexed(messages: Log, id: Option<MessageId>)
    requires id.Some? ==> forall i :: 0 <= i < |messages| ==> messages[i].id != id.value
    ensures PriorIndex(IndexById(messages), id) == -1
    decreases |messages|
  {
    if messages != [] {
      UnknownIsNotIndexed(messages[..|messages| - 1], id);
    }
  }

  /** A plan is a longer prefix folded once; there is one exactly when more than ten messages are not folded. */
  lemma PlanDescribes(fold: Folding, mark: Mark, messages: Log)
    requires UniqueIds(messages) && Describes(fold, messages, mark)
    ensures var plan := PlanFor(fold, mark, messages);
      && (plan.Save? <==> |messages| - mark.count > COMPACTION_RECENT_VERBATIM)
      && (plan.Save? ==> Describes(fold, messages, plan.mark))
      && (plan.Save? ==> plan.mark.count == mark.count + plan.folded && plan.folded > 0)
      && (plan.Save? ==> plan.mark.count == |messages| - COMPACTION_RECENT_VERBATIM)
  {
    PlanIs(fold, mark, messages);
    var plan := PlanFor(fold, mark, messages);
    if plan.Save? {
      var batches :| FoldedFrom(fold, messages, mark, batches);
      var last := Turns(messages[..plan.mark.count][mark.count..]);
      var longer := batches + [last];
      assert longer[..|batches|] == batches;
      assert Turns(messages[..mark.count]) + last == Turns(messages[..plan.mark.count]);
      assert FoldedFrom(fold, messages, plan.mark, longer);
    }
  }

  /** Compacting again right away folds nothing. */
  lemma SecondCompactionFoldsNothing(fold: Folding, mark: Mark, messages: Log)
    requires UniqueIds(messages) && Describes(fold, messages, mark)
    ensures var plan := PlanFor(fold, mark, messages);
      plan.Save? ==> PlanFor(fold, plan.mark, messages) == Nothing
  {
    PlanDescribes(fold, mark, messages);
    var plan := PlanFor(fold, mark, messages);
    if plan.Save? {
      PlanDescribes(fold, plan.mark, messages);
    }
  }

  lemma {:induction false} BatchesAreSmaller(batches: seq<seq<Summary.Message>>)
    ensures forall i :: 0 <= i < |batches| ==> |batches[i]| <= |Flatten(batches)|
    decreases |batches|
  {
    if batches != [] {
      BatchesAreSmaller(batches[..|batches| - 1]);
    }
  }

  /** `canonicalSummary` with its default budget. */
  function Canonical(phrases: Summary.Phrases): Folding {
    (summary, messages) => phrases.Canonical(summary, messages, Summary.COMPACTION_SUMMARY_BUDGET)
  }

  lemma {:induction false} FoldAllIsFolded(phrases: Summary.Phrases, batches: seq<seq<Summary.Message>>)
    ensures FoldAll(Canonical(phrases), batches) == phrases.Folded(batches, Summary.COMPACTION_SUMMARY_BUDGET)
    decreases |batches|
  {
    if batches != [] {
      FoldAllIsFolded(phrases, batches[..|batches| - 1]);
    }
  }

  /** A summary that describes the log keeps to the budget. */
  lemma {:induction false} DescribingSummaryFits(phrases: Summary.Phrases, log: Log, mark: Mark)
    requires phrases.Valid() && Describes(Canonical(phrases), log, mark) && |log| < Summary.COUNT_LIMIT
    ensures |mark.summary| <= Summary.COMPACTION_SUMMARY_BUDGET
  {
    var batches :| FoldedFrom(Canonical(phrases), log, mark, batches);
    BatchesAreSmaller(batches);
    FoldAllIsFolded(phrases, batches);
    phrases.EverySummaryFits(batches, Summary.COMPACTION_SUMMARY_BUDGET);
  }
}
