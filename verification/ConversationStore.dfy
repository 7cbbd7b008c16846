/**
  The in-memory conversation store: one active thread per organization, and message
  logs that are only appended to.  Here every operation runs to its end before the
  next begins; `ConversationRaces` interleaves them.

  The conversations are kept in insertion order; the id `conversation_n` is position
  n - 1.  The clock and the message ids are parameters, and timestamps are integers.
 */
module ConversationStore {
  import opened Wrappers
  import Summary

  type MessageId = string

  datatype Status = Active | Archived

  /** An absent summary is the empty text, an absent count is 0. */
  datatype ConversationRecord = ConversationRecord(
    organizationId: string,
    title: string,
    status: Status,
    createdAt: int,
    updatedAt: int,
    lastMessageAt: Option<int>,
    summary: Summary.Text,
    compactedAt: Option<int>,
    compactedUpTo: Option<MessageId>,
    compactionMessageCount: nat)
  {
    function RecentActivity(): int {
      lastMessageAt.GetOr(createdAt)
    }

    predicate IsActiveOf(organizationId: string) {
      this.organizationId == organizationId && status == Active
    }

    function Closed(now: int): ConversationRecord {
      this.(status := Archived, updatedAt := now)
    }

    function Compacted(summary: Summary.Text, upTo: MessageId, count: nat, now: int): ConversationRecord {
      this.(summary := summary, compactedAt := Some(now), compactedUpTo := Some(upTo),
            compactionMessageCount := count, updatedAt := now)
    }
  }

  datatype ConversationMessage = ConversationMessage(id: MessageId, role: Summary.Role, content: Summary.Text, createdAt: int)
  {
    function Turn(): Summary.Message {
      Summary.Message(role, content)
    }
  }

  /** The messages of a conversation, oldest first. */
  type Log = seq<ConversationMessage>

  function NewRecord(organizationId: string, title: string, now: int): ConversationRecord {
    ConversationRecord(organizationId, title, Active, now, now, None, [], None, None, 0)
  }

  datatype Store = Store(conversations: seq<ConversationRecord>, messages: seq<seq<ConversationMessage>>)
  {
    predicate Valid() {
      |conversations| == |messages|
    }

    predicate Has(organizationId: string, id: nat) {
      id < |conversations| && conversations[id].organizationId == organizationId
    }

    predicate HasActive(organizationId: string) {
      exists i :: 0 <= i < |conversations| && conversations[i].IsActiveOf(organizationId)
    }

    function Put(id: nat, record: ConversationRecord): Store
      requires id < |conversations|
    {
      this.(conversations := conversations[id := record])
    }
  }

  const EMPTY: Store := Store([], [])

  // ----- the operations

  datatype Operation =
    | EnsureCanonical(organizationId: string, title: string, now: int)
    | StartNew(organizationId: string, title: string, now: int)
    | Archive(organizationId: string, id: nat, now: int)
    | Rename(organizationId: string, id: nat, title: string, now: int)
    | AddMessage(id: nat, message: ConversationMessage)
    | SaveCompaction(organizationId: string, id: nat, summary: Summary.Text, upTo: MessageId, count: nat, now: int)

  function Created(s: Store, organizationId: string, title: string, now: int): Store {
    Store(s.conversations + [NewRecord(organizationId, title, now)], s.messages + [[]])
  }

  /** Every active conversation of the organization among the first `n` is archived. */
  function CloseFirst(conversations: seq<ConversationRecord>, organizationId: string, now: int, n: nat)
    : (closed: seq<ConversationRecord>)
    ensures |closed| == |conversations|
  {
    seq(|conversations|, i requires 0 <= i < |conversations| =>
      if i < n && conversations[i].IsActiveOf(organizationId) then conversations[i].Closed(now) else conversations[i])
  }

  function Apply(s: Store, op: Operation): Store
    requires s.Valid()
  {
    match op
    case EnsureCanonical(org, title, now) => if s.HasActive(org) then s else Created(s, org, title, now)
    case StartNew(org, title, now) =>
      Created(s.(conversations := CloseFirst(s.conversations, org, now, |s.conversations|)), org, title, now)
    case Archive(org, id, now) => if s.Has(org, id) then s.Put(id, s.conversations[id].Closed(now)) else s
    case Rename(org, id, title, now) =>
      if s.Has(org, id) then s.Put(id, s.conversations[id].(title := title, updatedAt := now)) else s
    case AddMessage(id, message) =>
      if id < |s.conversations| then
        Store(s.conversations[id := s.conversations[id].(lastMessageAt := Some(message.createdAt), updatedAt := message.createdAt)],
              s.messages[id := s.messages[id] + [message]])
      else s
    case SaveCompaction(org, id, summary, upTo, count, now) =>
      if s.Has(org, id) then s.Put(id, s.conversations[id].Compacted(summary, upTo, count, now)) else s
  }

  function Run(s: Store, ops: seq<Operation>): (t: Store)
    requires s.Valid()
    ensures t.Valid() && |s.conversations| <= |t.conversations|
    decreases |ops|
  {
    if ops == [] then s else Run(Apply(s, ops[0]), ops[1..])
  }

  // ----- one active conversation

  ghost predicate OneActive(s: Store, organizationId: string) {
    forall i, j | 0 <= i < |s.conversations| && 0 <= j < |s.conversations| ::
      s.conversations[i].IsActiveOf(organizationId) && s.conversations[j].IsActiveOf(organizationId) ==> i == j
  }

  lemma StepKeepsOneActive(s: Store, op: Operation, organizationId: string)
    requires s.Valid() && OneActive(s, organizationId)
    ensures OneActive(Apply(s, op), organizationId)
  {
  }

  /** Over every run of operations an organization has at most one active conversation. */
  lemma {:induction false} RunKeepsOneActive(s: Store, ops: seq<Operation>, organizationId: string)
    requires s.Valid() && OneActive(s, organizationId)
    ensures OneActive(Run(s, ops), organizationId)
    decreases |ops|
  {
    if ops != [] {
      StepKeepsOneActive(s, ops[0], organizationId);
      RunKeepsOneActive(Apply(s, ops[0]), ops[1..], organizationId);
    }
  }

  /** After `startNew` exactly one is active, the new one, however many were before. */
  lemma ExactlyOneAfterStartNew(s: Store, organizationId: string, title: string, now: int)
    requires s.Valid()
    ensures var t := Apply(s, StartNew(organizationId, title, now));
      && (forall i :: 0 <= i < |t.conversations| ==>
            (t.conversations[i].IsActiveOf(organizationId) <==> i == |s.conversations|))
      && t.messages == s.messages + [[]]
  {
  }

  /** `create` alone does not look for an active conversation. */
  lemma CreateKeepsOneActiveIff(s: Store, organizationId: string, title: string, now: int)
    requires s.Valid() && OneActive(s, organizationId)
    ensures OneActive(Created(s, organizationId, title, now), organizationId) <==> !s.HasActive(organizationId)
  {
    var t := Created(s, organizationId, title, now);
    assert t.conversations[|s.conversations|].IsActiveOf(organizationId);
    if s.HasActive(organizationId) {
      var i :| 0 <= i < |s.conversations| && s.conversations[i].IsActiveOf(organizationId);
      assert t.conversations[i].IsActiveOf(organizationId);
    }
  }

  // ----- other organizations, other conversations

  /** The conversations of the organization and their logs are the same in both. */
  ghost predicate SameFor(s: Store, t: Store, organizationId: string)
    requires s.Valid() && t.Valid()
  {
    && |s.conversations| <= |t.conversations|
    && (forall i :: 0 <= i < |s.conversations| && s.conversations[i].organizationId == organizationId ==>
          t.conversations[i] == s.conversations[i] && t.messages[i] == s.messages[i])
    && (forall i :: 0 <= i < |t.conversations| && t.conversations[i].organizationId == organizationId ==>
          i < |s.conversations| && s.conversations[i].organizationId == organizationId)
  }

  predicate Concerns(s: Store, op: Operation, organizationId: string) {
    match op
    case AddMessage(id, _) => id < |s.conversations| && s.conversations[id].organizationId == organizationId
    case _ => op.organizationId == organizationId
  }

  lemma StepLeavesOthers(s: Store, op: Operation, organizationId: string)
    requires s.Valid() && !Concerns(s, op, organizationId)
    ensures SameFor(s, Apply(s, op), organizationId)
  {
  }

  /** A run in which no operation concerns the organization. */
  ghost predicate NeverConcerns(s: Store, ops: seq<Operation>, organizationId: string)
    requires s.Valid()
    decreases |ops|
  {
    ops != [] ==> !Concerns(s, ops[0], organizationId) && NeverConcerns(Apply(s, ops[0]), ops[1..], organizationId)
  }

  lemma {:induction false} OthersUntouched(s: Store, ops: seq<Operation>, organizationId: string)
    requires s.Valid() && NeverConcerns(s, ops, organizationId)
    ensures SameFor(s, Run(s, ops), organizationId)
    decreases |ops|
  {
    if ops != [] {
      StepLeavesOthers(s, ops[0], organizationId);
      OthersUntouched(Apply(s, ops[0]), ops[1..], organizationId);
    }
  }

  /** A log only grows at its end, a conversation never changes hands, and an archived one stays archived. */
  ghost predicate Grows(s: Store, t: Store)
    requires s.Valid() && t.Valid()
  {
    && |s.conversations| <= |t.conversations|
    && (forall i :: 0 <= i < |s.conversations| ==>
          && s.messages[i] <= t.messages[i]
          && t.conversations[i].organizationId == s.conversations[i].organizationId
          && t.conversations[i].createdAt == s.conversations[i].createdAt
          && (s.conversations[i].status == Archived ==> t.conversations[i].status == Archived))
  }

  lemma {:induction false} LogsOnlyGrow(s: Store, ops: seq<Operation>)
    requires s.Valid()
    ensures Grows(s, Run(s, ops))
    decreases |ops|
  {
    if ops != [] {
      var t := Apply(s, ops[0]);
      assert Grows(s, t);
      LogsOnlyGrow(t, ops[1..]);
    }
  }

  function PostedBy(op: Operation, id: nat): Log {
    if op.AddMessage? && op.id == id then [op.message] else []
  }

  /** The messages added to a conversation, in order. */
  function Posted(ops: seq<Operation>, id: nat): Log {
    if ops == [] then [] else PostedBy(ops[0], id) + Posted(ops[1..], id)
  }

  lemma StepPosts(s: Store, op: Operation, id: nat)
    requires s.Valid() && id < |s.conversations|
    ensures Apply(s, op).Valid() && id < |Apply(s, op).conversations|
    ensures Apply(s, op).messages[id] == s.messages[id] + PostedBy(op, id)
  {
  }

  /** No operation loses, repeats or reorders a message: a log gains exactly what was posted to it. */
  lemma {:induction false} LogGainsWhatWasPosted(s: Store, ops: seq<Operation>, id: nat)
    requires s.Valid() && id < |s.conversations|
    ensures Run(s, ops).messages[id] == s.messages[id] + Posted(ops, id)
    decreases |ops|
  {
    if ops != [] {
      StepPosts(s, ops[0], id);
      LogGainsWhatWasPosted(Apply(s, ops[0]), ops[1..], id);
    }
  }

  // ----- what each operation writes

  /** The operation is addressed to the conversation and comes from its own organization. */
  predicate Addresses(op: Operation, record: ConversationRecord, id: nat) {
    match op
    case AddMessage(to, _) => to == id
    case Archive(org, to, _) => to == id && org == record.organizationId
    case Rename(org, to, _, _) => to == id && org == record.organizationId
    case SaveCompaction(org, to, _, _, _, _) => to == id && org == record.organizationId
    case StartNew(org, _, _) => org == record.organizationId && record.status == Active
    case EnsureCanonical(_, _, _) => false
  }

  function TimeOf(op: Operation): int {
    if op.AddMessage? then op.message.createdAt else op.now
  }

  /** Field by field, what is left of a record by an operation. */
  ghost predicate Wrote(op: Operation, id: nat, before: ConversationRecord, after: ConversationRecord) {
    var addressed := Addresses(op, before, id);
    && after.organizationId == before.organizationId
    && after.createdAt == before.createdAt
    && after.title == (if op.Rename? && addressed then op.title else before.title)
    && after.status == (if (op.Archive? || op.StartNew?) && addressed then Archived else before.status)
    && after.lastMessageAt == (if op.AddMessage? && addressed then Some(op.message.createdAt) else before.lastMessageAt)
    && after.updatedAt == (if addressed then TimeOf(op) else before.updatedAt)
    && after.summary == (if op.SaveCompaction? && addressed then op.summary else before.summary)
    && after.compactedAt == (if op.SaveCompaction? && addressed then Some(op.now) else before.compactedAt)
    && after.compactedUpTo == (if op.SaveCompaction? && addressed then Some(op.upTo) else before.compactedUpTo)
    && after.compactionMessageCount == (if op.SaveCompaction? && addressed then op.count else before.compactionMessageCount)
  }

  lemma StepWrites(s: Store, op: Operation, id: nat)
    requires s.Valid() && id < |s.conversations|
    ensures |s.conversations| <= |Apply(s, op).conversations|
    ensures Wrote(op, id, s.conversations[id], Apply(s, op).conversations[id])
  {
  }

  /** One record at most is added, to an organization without an active one or after its active ones were closed. */
  lemma StepCreates(s: Store, op: Operation)
    requires s.Valid()
    ensures var t := Apply(s, op);
      if op.StartNew? || (op.EnsureCanonical? && !s.HasActive(op.organizationId)) then
        && |t.conversations| == |s.conversations| + 1 && t.messages == s.messages + [[]]
        && t.conversations[|s.conversations|] ==
           ConversationRecord(op.organizationId, op.title, Active, op.now, op.now, None, [], None, None, 0)
      else |t.conversations| == |s.conversations|
  {
  }

  /** The titles a conversation was given by its own organization, in order. */
  function TitlesGiven(ops: seq<Operation>, id: nat, organizationId: string): seq<string> {
    if ops == [] then []
    else
      (if ops[0].Rename? && ops[0].id == id && ops[0].organizationId == organizationId then [ops[0].title] else [])
      + TitlesGiven(ops[1..], id, organizationId)
  }

  /** Over every run a conversation bears the last title given to it, or the one it had. */
  lemma {:induction false} TitleIsLastGiven(s: Store, ops: seq<Operation>, id: nat)
    requires s.Valid() && id < |s.conversations|
    ensures var before, after := s.conversations[id], Run(s, ops).conversations[id];
      var titles := TitlesGiven(ops, id, before.organizationId);
      after.title == if titles == [] then before.title else titles[|titles| - 1]
    decreases |ops|
  {
    if ops != [] {
      StepWrites(s, ops[0], id);
      TitleIsLastGiven(Apply(s, ops[0]), ops[1..], id);
    }
  }

  /** A conversation's activity is the time of the last message of its log. */
  ghost predicate ActivityIsLastMessage(s: Store)
    requires s.Valid()
  {
    forall i :: 0 <= i < |s.conversations| ==>
      s.conversations[i].lastMessageAt ==
      if s.messages[i] == [] then None else Some(s.messages[i][|s.messages[i]| - 1].createdAt)
  }

  lemma StepKeepsActivity(s: Store, op: Operation)
    requires s.Valid() && ActivityIsLastMessage(s)
    ensures ActivityIsLastMessage(Apply(s, op))
  {
  }

  /** Over every run a conversation's recent activity is the time of its last message, or of its creation. */
  lemma {:induction false} RunKeepsActivity(s: Store, ops: seq<Operation>)
    requires s.Valid() && ActivityIsLastMessage(s)
    ensures var t := Run(s, ops);
      && ActivityIsLastMessage(t)
      && forall i :: 0 <= i < |t.conversations| ==>
           t.conversations[i].RecentActivity() ==
           if t.messages[i] == [] then t.conversations[i].createdAt else t.messages[i][|t.messages[i]| - 1].createdAt
    decreases |ops|
  {
    if ops != [] {
      StepKeepsActivity(s, ops[0]);
      RunKeepsActivity(Apply(s, ops[0]), ops[1..]);
    }
  }

  // ----- counting

  /** The positions of the organization's active conversations among the first `n`. */
  function ActiveAmong(conversations: seq<ConversationRecord>, organizationId: string, n: nat): set<nat>
    requires n <= |conversations|
  {
    set i: nat | i < n && conversations[i].IsActiveOf(organizationId)
  }

  lemma OneMoreActive(conversations: seq<ConversationRecord>, organizationId: string, n: nat)
    requires n < |conversations|
    ensures |ActiveAmong(conversations, organizationId, n + 1)| ==
            |ActiveAmong(conversations, organizationId, n)| + if conversations[n].IsActiveOf(organizationId) then 1 else 0
  {
    var before, after := ActiveAmong(conversations, organizationId, n), ActiveAmong(conversations, organizationId, n + 1);
    assert after == if conversations[n].IsActiveOf(organizationId) then before + {n} else before;
  }

  /** The single-thread property in numbers. */
  lemma OneActiveIffCount(s: Store, organizationId: string)
    ensures OneActive(s, organizationId) <==> |ActiveAmong(s.conversations, organizationId, |s.conversations|)| <= 1
  {
    var actives := ActiveAmong(s.conversations, organizationId, |s.conversations|);
    if OneActive(s, organizationId) && actives != {} {
      var i :| i in actives;
      assert actives == {i};
    }
    if |actives| <= 1 {
      forall i, j | 0 <= i < |s.conversations| && 0 <= j < |s.conversations|
                    && s.conversations[i].IsActiveOf(organizationId) && s.conversations[j].IsActiveOf(organizationId)
        ensures i == j
      {
        assert {i, j} <= actives;
        if i != j {
          SubsetIsSmaller({i, j}, actives);
        }
      }
    }
  }

  lemma SubsetIsSmaller(a: set<nat>, b: set<nat>)
    requires a <= b
    ensures |a| <= |b|
  {
    assert b == a + (b - a);
  }

  // ----- the store

  class InMemoryConversationStore {
    var conversations: seq<ConversationRecord>
    var messages: seq<seq<ConversationMessage>>
    var counter: nat

    ghost predicate Valid()
      reads this
    {
      counter == |conversations| == |messages|
    }

    function View(): Store
      reads this
    {
      Store(conversations, messages)
    }

    constructor ()
      ensures Valid() && View() == EMPTY
    {
      conversations, messages, counter := [], [], 0;
    }

    method Create(organizationId: string, title: string, now: int) returns (id: nat)
      requires Valid()
      modifies this
      ensures Valid() && View() == Created(old(View()), organizationId, title, now)
      ensures id == old(|conversations|) && conversations == old(conversations) + [NewRecord(organizationId, title, now)]
    {
      counter := counter + 1;
      conversations := conversations + [NewRecord(organizationId, title, now)];
      messages := messages + [[]];
      id := counter - 1;
    }

    /** The first of the active conversations that `listForOrg` sorts to the front. */
    method FrontOfList(organizationId: string) returns (front: Option<nat>)
      requires Valid()
      ensures front.Some? <==> View().HasActive(organizationId)
      ensures front.Some? ==> front.value < |conversations| && conversations[front.value].IsActiveOf(organizationId)
      ensures forall i :: 0 <= i < |conversations| && conversations[i].IsActiveOf(organizationId) ==>
                front.Some? && InFront(front.value, i)
    {
      front := None;
      for i := 0 to |conversations|
        invariant front.Some? ==> front.value < i && conversations[front.value].IsActiveOf(organizationId)
        invariant forall j :: 0 <= j < i && conversations[j].IsActiveOf(organizationId) ==>
                    front.Some? && InFront(front.value, j)
      {
        if conversations[i].IsActiveOf(organizationId) {
          if front.None? || conversations[front.value].RecentActivity() < conversations[i].RecentActivity() {
            front := Some(i);
          }
        }
      }
    }

    /** Before `j` in the list: later activity, or the same and created earlier. */
    predicate InFront(i: nat, j: nat)
      reads this
      requires i < |conversations| && j < |conversations|
    {
      var a, b := conversations[i].RecentActivity(), conversations[j].RecentActivity();
      a > b || (a == b && i <= j)
    }

    method EnsureCanonical(organizationId: string, title: string, now: int) returns (id: nat)
      requires Valid()
      modifies this
      ensures Valid() && View() == Apply(old(View()), Operation.EnsureCanonical(organizationId, title, now))
      ensures id < |conversations| && conversations[id].IsActiveOf(organizationId)
      ensures forall i :: 0 <= i < |conversations| && conversations[i].IsActiveOf(organizationId) ==> InFront(id, i)
      ensures old(View()).HasActive(organizationId) || id == old(|conversations|)
    {
      var active := FrontOfList(organizationId);
      if active.Some? {
        id := active.value;
      } else {
        id := Create(organizationId, title, now);
      }
    }

    method StartNew(organizationId: string, title: string, now: int) returns (id: nat)
      requires Valid()
      modifies this
      ensures Valid() && View() == Apply(old(View()), Operation.StartNew(organizationId, title, now))
      ensures id == old(|conversations|)
    {
      for i := 0 to |conversations|
        invariant Valid() && messages == old(messages)
        invariant conversations == CloseFirst(old(conversations), organizationId, now, i)
      {
        if conversations[i].IsActiveOf(organizationId) {
          conversations := conversations[i := conversations[i].Closed(now)];
        }
      }
      id := Create(organizationId, title, now);
    }

    /** Nothing is said to exist of another organization's conversation. */
    method Get(organizationId: string, id: nat) returns (record: Option<ConversationRecord>)
      requires Valid()
      ensures record == if View().Has(organizationId, id) then Some(conversations[id]) else None
    {
      if id < |conversations| && conversations[id].organizationId == organizationId {
        record := Some(conversations[id]);
      } else {
        record := None;
      }
    }

    method Archive(organizationId: string, id: nat, now: int) returns (ok: bool)
      requires Valid()
      modifies this`conversations
      ensures Valid() && View() == Apply(old(View()), Operation.Archive(organizationId, id, now))
      ensures ok <==> View().Has(organizationId, id)
      ensures messages == old(messages)
      ensures conversations == if ok then old(conversations)[id := old(conversations[id]).(status := Archived, updatedAt := now)]
                               else old(conversations)
    {
      var record := Get(organizationId, id);
      if record.None? {
        return false;
      }
      conversations := conversations[id := record.value.Closed(now)];
      ok := true;
    }

    method Rename(organizationId: string, id: nat, title: string, now: int) returns (ok: bool)
      requires Valid()
      modifies this`conversations
      ensures Valid() && View() == Apply(old(View()), Operation.Rename(organizationId, id, title, now))
      ensures ok <==> View().Has(organizationId, id)
      ensures messages == old(messages)
      ensures conversations == if ok then old(conversations)[id := old(conversations[id]).(title := title, updatedAt := now)]
                               else old(conversations)
    {
      var record := Get(organizationId, id);
      if record.None? {
        return false;
      }
      conversations := conversations[id := record.value.(title := title, updatedAt := now)];
      ok := true;
    }

    /** False stands for the error thrown for an unknown conversation. */
    method AddMessage(id: nat, message: ConversationMessage) returns (ok: bool)
      requires Valid()
      modifies this`conversations, this`messages
      ensures Valid() && View() == Apply(old(View()), Operation.AddMessage(id, message))
      ensures ok <==> id < |conversations|
      ensures ok ==> Wrote(Operation.AddMessage(id, message), id, old(conversations[id]), conversations[id])
      ensures ok ==> messages == old(messages)[id := old(messages[id]) + [message]]
      ensures ok ==> |conversations| == old(|conversations|)
                     && forall i :: 0 <= i < |conversations| && i != id ==> conversations[i] == old(conversations[i])
      ensures !ok ==> conversations == old(conversations) && messages == old(messages)
    {
      if id >= |conversations| {
        return false;
      }
      var record := conversations[id];
      messages := messages[id := messages[id] + [message]];
      conversations := conversations[id := record.(lastMessageAt := Some(message.createdAt), updatedAt := message.createdAt)];
      ok := true;
    }

    method SaveCompaction(organizationId: string, id: nat, summary: Summary.Text, upTo: MessageId, count: nat, now: int)
      returns (ok: bool)
      requires Valid()
      modifies this`conversations
      ensures Valid() && View() == Apply(old(View()), Operation.SaveCompaction(organizationId, id, summary, upTo, count, now))
      ensures ok <==> View().Has(organizationId, id)
      ensures messages == old(messages) && |conversations| == old(|conversations|)
      ensures ok ==> Wrote(Operation.SaveCompaction(organizationId, id, summary, upTo, count, now), id,
                           old(conversations[id]), conversations[id])
      ensures forall i :: 0 <= i < |conversations| && (!ok || i != id) ==> conversations[i] == old(conversations[i])
    {
      var record := Get(organizationId, id);
      if record.None? {
        return false;
      }
      conversations := conversations[id := record.value.Compacted(summary, upTo, count, now)];
      ok := true;
    }

    method ListMessages(organizationId: string, id: nat) returns (log: seq<ConversationMessage>)
      requires Valid()
      ensures log == if View().Has(organizationId, id) then messages[id] else []
    {
      var record := Get(organizationId, id);
      log := if record.None? then [] else messages[id];
    }

    method CountActiveForOrg(organizationId: string) returns (count: nat)
      requires Valid()
      ensures count == |ActiveAmong(conversations, organizationId, |conversations|)|
    {
      count := 0;
      for i := 0 to |conversations|
        invariant count == |ActiveAmong(conversations, organizationId, i)|
      {
        OneMoreActive(conversations, organizationId, i);
        if conversations[i].IsActiveOf(organizationId) {
          count := count + 1;
        }
      }
    }
  }
}
