/**
  The lifecycle commands of a session: compact the conversation, or start a new one.
  The `/compact` and `/new` commands hold the turn lock while they run.  The automatic
  compaction after a turn (server/routes/conversations.ts:408 and :744) does not, and
  neither does the archive route (:876); `CompactionRuns` and `ConversationRaces` say
  exactly when such an interleaving loses something.
 */
module ConversationLifecycle {
  import opened Wrappers
  import opened ConversationStore
  import opened Compaction
  import Summary
  import Unicode

  const DEFAULT_CONVERSATION_TITLE := "Nueva conversaci\U{00F3}n"

  datatype PendingWorkType = Email | Calendar | FacebookPages

  const PENDING_TYPES: seq<PendingWorkType> := [Email, Calendar, FacebookPages]

  /** The drafts and contexts that belong to one working thread. */
  datatype Thread = Thread(
    emailWork: Option<string>, calendarWork: Option<string>, facebookPagesWork: Option<string>,
    emailContext: Option<string>, calendarOperation: Option<string>, executionReceipt: Option<string>,
    activeWork: Option<string>, turnSequence: nat, conversation: seq<Summary.Message>)

  const CLEAN_THREAD: Thread := Thread(None, None, None, None, None, None, None, 0, [])

  datatype Cleanup = Cleanup(conversationId: nat, workType: PendingWorkType)

  datatype CompactionResult = CompactionResult(
    conversation: ConversationRecord, compacted: bool, foldedMessages: nat, contextBytes: nat, summaryChars: nat)

  /** `Buffer.byteLength(text, "utf8")` of UTF-16 units; a lone surrogate is replaced by U+FFFD, of three bytes. */
  function ByteLength(text: Summary.Text): nat {
    if text == [] then 0
    else if text[0] < 0x80 then 1 + ByteLength(text[1..])
    else if text[0] < 0x800 then 2 + ByteLength(text[1..])
    else if 0xD800 <= text[0] < 0xDC00 && |text| > 1 && 0xDC00 <= text[1] < 0xE000 then 4 + ByteLength(text[2..])
    else 3 + ByteLength(text[1..])
  }

  /** The bytes counted are those of the text in UTF-8. */
  lemma {:induction false} ByteLengthIsUtf8(text: Summary.Text)
    requires Unicode.SixteenBits(text)
    ensures ByteLength(text) == |Unicode.Utf8All(Unicode.CodePoints(text))|
    decreases |text|
  {
    if text != [] {
      ByteLengthIsUtf8(text[if Unicode.High(text[0]) && |text| > 1 && Unicode.Low(text[1]) then 2 else 1..]);
    }
  }

  // ----- what is done with the bytes and the pending work

  function TotalBytes(messages: Log): nat {
    if messages == [] then 0 else TotalBytes(messages[..|messages| - 1]) + ByteLength(messages[|messages| - 1].content)
  }

  /** What the model is given: the summary and the messages kept verbatim. */
  function ContextBytes(summary: Summary.Text, messages: Log): nat {
    ByteLength(summary) + TotalBytes(SplitForCompaction(messages, COMPACTION_RECENT_VERBATIM).recent)
  }

  /** The bytes of a log are those of its messages, each encoded on its own. */
  lemma {:induction false} TotalBytesIsASum(messages: Log, more: Log)
    ensures TotalBytes(messages + more) == TotalBytes(messages) + TotalBytes(more)
    ensures forall m: ConversationMessage :: Unicode.SixteenBits(m.content) ==> TotalBytes([m]) == |Unicode.Utf8All(Unicode.CodePoints(m.content))|
    decreases |more|
  {
    forall m: ConversationMessage | Unicode.SixteenBits(m.content) ensures TotalBytes([m]) == |Unicode.Utf8All(Unicode.CodePoints(m.content))| {
      assert TotalBytes([m][..0]) == 0;
      ByteLengthIsUtf8(m.content);
    }
    if more == [] {
      assert messages + more == messages;
    } else {
      var n := |more| - 1;
      TotalBytesIsASum(messages, more[..n]);
      assert (messages + more)[..|messages + more| - 1] == messages + more[..n];
    }
  }

  /** What the model is given is the summary and the last ten messages, or all of fewer. */
  lemma {:induction false} ContextIsSummaryAndLastTen(summary: Summary.Text, older: Log, recent: Log)
    requires |recent| == 10 || (|recent| < 10 && older == [])
    ensures ContextBytes(summary, older + recent) == ByteLength(summary) + TotalBytes(recent)
  {
    assert SplitForCompaction(older + recent, COMPACTION_RECENT_VERBATIM).recent == recent;
  }

  function CleanupsOf(previous: Option<nat>): (calls: seq<Cleanup>)
    ensures |calls| == if previous.Some? then 3 else 0
  {
    if previous.None? then []
    else seq(|PENDING_TYPES|, i requires 0 <= i < |PENDING_TYPES| => Cleanup(previous.value, PENDING_TYPES[i]))
  }

  /** Work of every kind is cancelled, once each, and only that of the previous conversation. */
  lemma {:induction false} EachKindIsCancelledOnce(previous: nat, work: PendingWorkType)
    ensures multiset(CleanupsOf(Some(previous)))[Cleanup(previous, work)] == 1
    ensures forall call :: call in CleanupsOf(Some(previous)) ==> call.conversationId == previous
    ensures CleanupsOf(None) == []
  {
    var calls := CleanupsOf(Some(previous));
    assert calls == [Cleanup(previous, PENDING_TYPES[0]), Cleanup(previous, PENDING_TYPES[1]), Cleanup(previous, PENDING_TYPES[2])];
  }

  /** The record after a plan is carried out. */
  function Carried(record: ConversationRecord, plan: Plan, now: int): ConversationRecord {
    if plan.Save? then record.Compacted(plan.mark.summary, plan.mark.upTo.GetOr(""), plan.mark.count, now) else record
  }

  /** Carrying out a plan writes the four fields of the compaction and the time, as `saveCompaction` does. */
  lemma CarriedWrites(record: ConversationRecord, plan: Plan, now: int, id: nat)
    ensures plan.Nothing? ==> Carried(record, plan, now) == record
    ensures plan.Save? ==>
              Wrote(SaveCompaction(record.organizationId, id, plan.mark.summary, plan.mark.upTo.GetOr(""), plan.mark.count, now), id,
                    record, Carried(record, plan, now))
  {
  }

  class Session {
    const organizationId: string
    const conversations: InMemoryConversationStore
    var currentConversationId: Option<nat>
    var thread: Thread
    /** Calls of the pending-work port; what they answer is ignored. */
    var cleanups: seq<Cleanup>

    constructor (organizationId: string, conversations: InMemoryConversationStore)
      ensures this.organizationId == organizationId && this.conversations == conversations
      ensures currentConversationId == None && thread == CLEAN_THREAD && cleanups == []
    {
      this.organizationId, this.conversations := organizationId, conversations;
      currentConversationId, thread, cleanups := None, CLEAN_THREAD, [];
    }

    method IndexMessages(messages: Log) returns (index: Index)
      ensures index == IndexById(messages)
    {
      index := map[];
      for i := 0 to |messages|
        invariant index == IndexById(messages[..i])
      {
        assert messages[..i + 1][..i] == messages[..i];
        index := index[messages[i].id := i];
      }
      assert messages[..|messages|] == messages;
    }

    method FilterNew(index: Index, older: Log, priorIndex: int) returns (newOlder: Log)
      ensures newOlder == After(index, older, priorIndex, |older|)
    {
      newOlder := [];
      for i := 0 to |older|
        invariant newOlder == After(index, older, priorIndex, i)
      {
        if Position(index, older[i].id, -1) > priorIndex {
          newOlder := newOlder + [older[i]];
        }
      }
    }

    /** From the split to the summary: what there is to save, if anything. */
    method MakePlan(fold: Folding, mark: Mark, messages: Log) returns (plan: Plan)
      ensures plan == PlanFor(fold, mark, messages)
    {
      var older := SplitForCompaction(messages, COMPACTION_RECENT_VERBATIM).older;
      var indexById := IndexMessages(messages);
      var priorIndex := PriorIndex(indexById, mark.upTo);
      var newOlder := FilterNew(indexById, older, priorIndex);
      if newOlder == [] {
        return Nothing;
      }
      var summary := fold(mark.summary, Turns(newOlder));
      var lastFolded := newOlder[|newOlder| - 1];
      var count := Position(indexById, lastFolded.id, priorIndex) + 1;
      plan := Save(Mark(summary, Some(lastFolded.id), if count < 0 then 0 else count), |newOlder|);
    }

    method SumBytes(messages: Log) returns (sum: nat)
      ensures sum == TotalBytes(messages)
    {
      sum := 0;
      for i := 0 to |messages|
        invariant sum == TotalBytes(messages[..i])
      {
        assert messages[..i + 1][..i] == messages[..i];
        sum := sum + ByteLength(messages[i].content);
      }
      assert messages[..|messages|] == messages;
    }

    /** None stands for the error that no active conversation was found. */
    method CompactConversation(fold: Folding, id: nat, now: int) returns (result: Option<CompactionResult>)
      requires conversations.Valid()
      modifies conversations`conversations
      ensures conversations.Valid()
      ensures result.Some? <==> old(id < |conversations.conversations| && conversations.conversations[id].IsActiveOf(organizationId))
      ensures result.None? ==> conversations.View() == old(conversations.View())
      ensures result.Some? ==>
        var record, log := old(conversations.conversations[id]), conversations.messages[id];
        var plan := PlanFor(fold, MarkOf(record), log);
        && conversations.conversations == old(conversations.conversations)[id := Carried(record, plan, now)]
        && result.value.conversation == Carried(record, plan, now)
        && result.value.compacted == plan.Save?
        && result.value.foldedMessages == (if plan.Save? then plan.folded else 0)
        && result.value.contextBytes == ContextBytes(result.value.conversation.summary, log)
        && result.value.summaryChars == |result.value.conversation.summary|
    {
      var conversation := conversations.Get(organizationId, id);
      if conversation.None? || conversation.value.status != Active {
        return None;
      }
      var messages := conversations.ListMessages(organizationId, id);
      var plan := MakePlan(fold, MarkOf(conversation.value), messages);
      var recentBytes := SumBytes(SplitForCompaction(messages, COMPACTION_RECENT_VERBATIM).recent);
      if plan.Nothing? {
        return Some(CompactionResult(
          conversation.value, false, 0, ByteLength(conversation.value.summary) + recentBytes, |conversation.value.summary|));
      }
      var saved := conversations.SaveCompaction(
        organizationId, id, plan.mark.summary, plan.mark.upTo.GetOr(""), plan.mark.count, now);
      var updated := conversations.Get(organizationId, id);
      result := Some(CompactionResult(
        updated.GetOr(conversation.value), true, plan.folded, ByteLength(plan.mark.summary) + recentBytes, |plan.mark.summary|));
    }

    /** The new conversation is the only active one, and nothing of the old thread stays in the session. */
    method StartNewConversation(now: int) returns (id: nat)
      requires conversations.Valid()
      modifies this, conversations
      ensures conversations.Valid()
      ensures id == old(|conversations.conversations|) && |conversations.conversations| == id + 1
      ensures currentConversationId == Some(id)
      ensures forall i :: 0 <= i < |conversations.conversations| ==>
                (conversations.conversations[i].IsActiveOf(organizationId) <==> i == id)
      ensures forall i :: 0 <= i < id ==> conversations.messages[i] == old(conversations.messages[i])
      ensures forall i :: 0 <= i < id && old(conversations.conversations[i]).organizationId != organizationId ==>
                conversations.conversations[i] == old(conversations.conversations[i])
      ensures thread == CLEAN_THREAD
      ensures cleanups == old(cleanups) + CleanupsOf(old(currentConversationId))
    {
      var previousConversationId := currentConversationId;
      id := conversations.StartNew(organizationId, DEFAULT_CONVERSATION_TITLE, now);
      currentConversationId := Some(id);
      if previousConversationId.Some? {
        for i := 0 to |PENDING_TYPES|
          modifies this`cleanups
          invariant cleanups == old(cleanups) + CleanupsOf(previousConversationId)[..i]
        {
          cleanups := cleanups + [Cleanup(previousConversationId.value, PENDING_TYPES[i])];
        }
      }
      thread := CLEAN_THREAD;
    }
  }
}
