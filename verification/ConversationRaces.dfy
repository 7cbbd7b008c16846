/**
  The conversation store under interleaving: `ensureCanonical` lists and only then
  creates, and `archive`, `rename` and `saveCompaction` write back a copy of the
  record that they read one await earlier.  `startNew` and `addMessage` run in one go.

  Any list of actions is an interleaving of any number of calls; an action that is not
  enabled leaves the state as it is.
 */
module ConversationRaces {
  import opened Wrappers
  import opened ConversationStore
  import Summary

  datatype Edit = Close | Retitle(title: string) | Compact(summary: Summary.Text, upTo: MessageId, count: nat)

  datatype Kind = Ensure(organizationId: string, title: string) | Change(organizationId: string, id: nat, edit: Edit)

  /** `Missing`: the list was empty.  `Copied`: the record was read.  `Over` names the conversation created, if any. */
  datatype Point = Begin | Missing | Copied(copy: ConversationRecord) | Over(created: Option<nat>)

  /** `early`: the call listed before any call had created a conversation for its organization. */
  datatype Call = Call(kind: Kind, point: Point, early: bool)

  datatype State = State(store: Store, calls: seq<Call>, created: set<string>)

  datatype Action = Start(kind: Kind) | Go(k: nat, now: int) | Direct(op: Operation)

  predicate Enabled(s: State, a: Action) {
    match a
    case Start(_) => true
    case Go(k, _) => k < |s.calls| && !s.calls[k].point.Over?
    case Direct(op) => s.store.Valid() && (op.StartNew? || op.AddMessage?)
  }

  function Edited(copy: ConversationRecord, edit: Edit, now: int): ConversationRecord {
    match edit
    case Close => copy.Closed(now)
    case Retitle(title) => copy.(title := title, updatedAt := now)
    case Compact(summary, upTo, count) => copy.Compacted(summary, upTo, count, now)
  }

  function Moved(s: State, k: nat, point: Point): State
    requires k < |s.calls|
  {
    s.(calls := s.calls[k := s.calls[k].(point := point)])
  }

  /** Up to the first await, or after it. */
  function Perform(s: State, k: nat, now: int): State
    requires k < |s.calls|
  {
    var org := s.calls[k].kind.organizationId;
    match s.calls[k].point
    case Begin =>
      (match s.calls[k].kind
       case Ensure(_, _) =>
         s.(calls := s.calls[k := Call(s.calls[k].kind, if s.store.HasActive(org) then Over(None) else Missing, org !in s.created)])
       case Change(_, id, _) => Moved(s, k, if s.store.Has(org, id) then Copied(s.store.conversations[id]) else Over(None)))
    case Missing =>
      if s.calls[k].kind.Change? then s
      else
        Moved(s, k, Over(Some(|s.store.conversations|)))
          .(store := Created(s.store, org, s.calls[k].kind.title, now), created := s.created + {org})
    case Copied(copy) =>
      if s.calls[k].kind.Change? && s.calls[k].kind.id < |s.store.conversations| then
        Moved(s, k, Over(None)).(store := s.store.Put(s.calls[k].kind.id, Edited(copy, s.calls[k].kind.edit, now)))
      else s
    case Over(_) => s
  }

  function Next(s: State, a: Action): State {
    if !Enabled(s, a) then s
    else
      match a
      case Start(kind) => s.(calls := s.calls + [Call(kind, Begin, false)])
      case Go(k, now) => Perform(s, k, now)
      case Direct(op) => s.(store := Apply(s.store, op))
  }

  /** The state after the first `i` actions. */
  function At(s: State, actions: seq<Action>, i: nat): State
    requires i <= |actions|
  {
    if i == 0 then s else Next(At(s, actions, i - 1), actions[i - 1])
  }

  ghost predicate Sound(s: State, call: Call) {
    && (call.point.Copied? ==>
          call.kind.Change? && s.store.Has(call.kind.organizationId, call.kind.id)
          && call.point.copy.organizationId == call.kind.organizationId)
    && (call.point.Missing? ==> call.kind.Ensure?)
  }

  ghost predicate Inv(s: State) {
    s.store.Valid() && forall k :: 0 <= k < |s.calls| ==> Sound(s, s.calls[k])
  }

  lemma StepKeepsInv(s: State, a: Action)
    requires Inv(s)
    ensures Inv(Next(s, a)) && |s.store.conversations| <= |Next(s, a).store.conversations|
  {
    if Enabled(s, a) && a.Go? {
      assert Sound(s, s.calls[a.k]);
    }
  }

  lemma {:induction false} AtKeepsInv(s: State, actions: seq<Action>, i: nat)
    requires Inv(s) && i <= |actions|
    ensures Inv(At(s, actions, i)) && |s.store.conversations| <= |At(s, actions, i).store.conversations|
    decreases i
  {
    if i > 0 {
      AtKeepsInv(s, actions, i - 1);
      StepKeepsInv(At(s, actions, i - 1), actions[i - 1]);
    }
  }

  // ----- a call that runs alone

  function OperationOf(kind: Kind, now: int): Operation {
    match kind
    case Ensure(org, title) => EnsureCanonical(org, title, now)
    case Change(org, id, Close) => Archive(org, id, now)
    case Change(org, id, Retitle(title)) => Rename(org, id, title, now)
    case Change(org, id, Compact(summary, upTo, count)) => SaveCompaction(org, id, summary, upTo, count, now)
  }

  /** A call that nothing comes between does what the store's operation does. */
  lemma {:induction false} CallAlone(s: State, kind: Kind, now: int)
    requires Inv(s)
    ensures var k, begun := |s.calls|, Next(s, Start(kind));
      var t := Next(Next(begun, Go(k, now)), Go(k, now));
      && t.store == Apply(s.store, OperationOf(kind, now))
      && |t.calls| == k + 1 && t.calls[..k] == s.calls && t.calls[k].kind == kind && t.calls[k].point.Over?
  {
    var k, begun := |s.calls|, Next(s, Start(kind));
    assert begun.calls[k] == Call(kind, Begin, false);
    var middle := Next(begun, Go(k, now));
    assert middle.store == s.store && middle.calls[k].kind == kind;
  }

  // ----- an archived conversation stays archived

  ghost predicate StaysArchived(s: Store, t: Store) {
    forall i :: 0 <= i < |s.conversations| && s.conversations[i].status == Archived ==>
      i < |t.conversations| && t.conversations[i].status == Archived
  }

  /** A write whose copy was read while the conversation was active, and which has been archived since. */
  predicate Revives(s: State, a: Action) {
    && a.Go? && Enabled(s, a)
    && var call := s.calls[a.k];
       call.point.Copied? && call.point.copy.status == Active && call.kind.Change? && !call.kind.edit.Close?
       && call.kind.id < |s.store.conversations| && s.store.conversations[call.kind.id].status == Archived
  }

  lemma StepStaysArchivedIff(s: State, a: Action)
    requires Inv(s)
    ensures StaysArchived(s.store, Next(s, a).store) <==> !Revives(s, a)
  {
    if Enabled(s, a) && a.Go? {
      assert Sound(s, s.calls[a.k]);
      if Revives(s, a) {
        assert Next(s, a).store.conversations[s.calls[a.k].kind.id].status == Active;
      }
    }
  }

  ghost predicate NoneRevives(s: State, actions: seq<Action>) {
    forall i :: 0 <= i < |actions| ==> !Revives(At(s, actions, i), actions[i])
  }

  ghost predicate ArchivedForGood(s: State, actions: seq<Action>) {
    forall i, j :: 0 <= i <= j <= |actions| ==> StaysArchived(At(s, actions, i).store, At(s, actions, j).store)
  }

  lemma StaysArchivedAtIff(s: State, actions: seq<Action>, i: nat)
    requires Inv(s) && i < |actions|
    ensures StaysArchived(At(s, actions, i).store, At(s, actions, i + 1).store) <==> !Revives(At(s, actions, i), actions[i])
  {
    AtKeepsInv(s, actions, i);
    StepStaysArchivedIff(At(s, actions, i), actions[i]);
  }

  lemma StaysArchivedThen(s: Store, t: Store, u: Store)
    requires StaysArchived(s, t) && StaysArchived(t, u)
    ensures StaysArchived(s, u)
  {
  }

  lemma {:induction false} StaysBetween(stores: seq<Store>, i: nat, j: nat)
    requires i <= j < |stores| && forall h :: 0 <= h < |stores| - 1 ==> StaysArchived(stores[h], stores[h + 1])
    ensures StaysArchived(stores[i], stores[j])
    decreases j
  {
    if i < j {
      StaysBetween(stores, i, j - 1);
      assert StaysArchived(stores[j - 1], stores[j - 1 + 1]);
      StaysArchivedThen(stores[i], stores[j - 1], stores[j]);
    }
  }

  function Stores(s: State, actions: seq<Action>): seq<Store> {
    seq(|actions| + 1, i requires 0 <= i <= |actions| => At(s, actions, i).store)
  }

  lemma ARevivalIsSeen(s: State, actions: seq<Action>, i: nat)
    requires Inv(s) && i < |actions| && Revives(At(s, actions, i), actions[i])
    ensures !ArchivedForGood(s, actions)
  {
    StaysArchivedAtIff(s, actions, i);
    var j := i + 1;
    assert !StaysArchived(At(s, actions, i).store, At(s, actions, j).store);
  }

  /** Over a run of any interleaving, archived conversations stay archived exactly when no write revives one. */
  lemma ArchivedForGoodIff(s: State, actions: seq<Action>)
    requires Inv(s)
    ensures ArchivedForGood(s, actions) <==> NoneRevives(s, actions)
  {
    if NoneRevives(s, actions) {
      forall h | 0 <= h < |actions| ensures StaysArchived(Stores(s, actions)[h], Stores(s, actions)[h + 1]) {
        StaysArchivedAtIff(s, actions, h);
      }
      forall i, j | 0 <= i <= j <= |actions| ensures StaysArchived(At(s, actions, i).store, At(s, actions, j).store) {
        StaysBetween(Stores(s, actions), i, j);
      }
    } else {
      var i :| 0 <= i < |actions| && Revives(At(s, actions, i), actions[i]);
      ARevivalIsSeen(s, actions, i);
    }
  }

  // ----- one active conversation

  /** A create after a list that is out of date, or a revival, while another conversation is active. */
  predicate Duplicates(s: State, a: Action, organizationId: string) {
    && a.Go? && Enabled(s, a) && s.calls[a.k].kind.organizationId == organizationId && s.store.HasActive(organizationId)
    && ((s.calls[a.k].point.Missing? && s.calls[a.k].kind.Ensure?) || Revives(s, a))
  }

  lemma RevivalDuplicates(s: State, a: Action, organizationId: string)
    requires Inv(s) && Revives(s, a) && s.calls[a.k].kind.organizationId == organizationId && OneActive(s.store, organizationId)
    ensures OneActive(Next(s, a).store, organizationId) <==> !s.store.HasActive(organizationId)
  {
    assert Sound(s, s.calls[a.k]);
    var id, t := s.calls[a.k].kind.id, Next(s, a).store;
    assert t.conversations[id].IsActiveOf(organizationId);
    if s.store.HasActive(organizationId) {
      var i :| 0 <= i < |s.store.conversations| && s.store.conversations[i].IsActiveOf(organizationId);
      assert t.conversations[i].IsActiveOf(organizationId) && i != id;
    }
  }

  lemma StepKeepsOneActiveIff(s: State, a: Action, organizationId: string)
    requires Inv(s) && OneActive(s.store, organizationId)
    ensures OneActive(Next(s, a).store, organizationId) <==> !Duplicates(s, a, organizationId)
  {
    if Enabled(s, a) {
      match a
      case Start(_) =>
      case Direct(op) => StepKeepsOneActive(s.store, op, organizationId);
      case Go(k, now) =>
        assert Sound(s, s.calls[k]);
        if s.calls[k].kind.organizationId == organizationId && s.calls[k].point.Missing? {
          CreateKeepsOneActiveIff(s.store, organizationId, s.calls[k].kind.title, now);
        } else if s.calls[k].kind.organizationId == organizationId && Revives(s, a) {
          RevivalDuplicates(s, a, organizationId);
        }
    }
  }

  ghost predicate NoneDuplicates(s: State, actions: seq<Action>, organizationId: string) {
    forall i :: 0 <= i < |actions| ==> !Duplicates(At(s, actions, i), actions[i], organizationId)
  }

  ghost predicate OneActiveThroughout(s: State, actions: seq<Action>, organizationId: string) {
    forall i :: 0 <= i <= |actions| ==> OneActive(At(s, actions, i).store, organizationId)
  }

  lemma OneActiveNextIff(s: State, actions: seq<Action>, organizationId: string, i: nat)
    requires Inv(s) && i < |actions| && OneActive(At(s, actions, i).store, organizationId)
    ensures OneActive(At(s, actions, i + 1).store, organizationId) <==> !Duplicates(At(s, actions, i), actions[i], organizationId)
  {
    AtKeepsInv(s, actions, i);
    StepKeepsOneActiveIff(At(s, actions, i), actions[i], organizationId);
  }

  lemma {:induction false} OneActiveAt(stores: seq<Store>, organizationId: string, i: nat)
    requires i < |stores| && OneActive(stores[0], organizationId)
    requires forall h :: 0 <= h < |stores| - 1 && OneActive(stores[h], organizationId) ==> OneActive(stores[h + 1], organizationId)
    ensures OneActive(stores[i], organizationId)
    decreases i
  {
    if i > 0 {
      OneActiveAt(stores, organizationId, i - 1);
      assert OneActive(stores[i - 1 + 1], organizationId);
    }
  }

  lemma ADuplicateIsSeen(s: State, actions: seq<Action>, organizationId: string, i: nat)
    requires Inv(s) && i < |actions| && OneActiveThroughout(s, actions, organizationId)
    ensures !Duplicates(At(s, actions, i), actions[i], organizationId)
  {
    OneActiveNextIff(s, actions, organizationId, i);
    var j := i + 1;
    assert OneActive(At(s, actions, j).store, organizationId);
  }

  /** Over a run of any interleaving an organization has at most one active conversation throughout iff nothing duplicates. */
  lemma OneActiveThroughoutIff(s: State, actions: seq<Action>, organizationId: string)
    requires Inv(s) && OneActive(s.store, organizationId)
    ensures OneActiveThroughout(s, actions, organizationId) <==> NoneDuplicates(s, actions, organizationId)
  {
    if NoneDuplicates(s, actions, organizationId) {
      var stores := Stores(s, actions);
      forall h | 0 <= h < |actions| && OneActive(stores[h], organizationId) ensures OneActive(stores[h + 1], organizationId) {
        OneActiveNextIff(s, actions, organizationId, h);
      }
      forall i | 0 <= i <= |actions| ensures OneActive(At(s, actions, i).store, organizationId) {
        OneActiveAt(stores, organizationId, i);
        assert stores[i] == At(s, actions, i).store;
      }
    }
    if OneActiveThroughout(s, actions, organizationId) {
      forall i | 0 <= i < |actions| ensures !Duplicates(At(s, actions, i), actions[i], organizationId) {
        ADuplicateIsSeen(s, actions, organizationId, i);
      }
    }
  }

  /** Such a run: a conversation is renamed across a `startNew`, and two are active. */
  lemma RenameAcrossStartNew(organizationId: string, title: string, now: int)
    ensures var record := NewRecord(organizationId, title, now);
      var s := State(Store([record], [[]]), [Call(Change(organizationId, 0, Retitle(title)), Begin, false)], {});
      var renewed := Next(Next(s, Go(0, now)), Direct(Operation.StartNew(organizationId, title, now)));
      && renewed.store.conversations[0].status == Archived
      && Revives(renewed, Go(0, now)) && Duplicates(renewed, Go(0, now), organizationId)
      && !OneActive(Next(renewed, Go(0, now)).store, organizationId)
  {
    var record := NewRecord(organizationId, title, now);
    var s := State(Store([record], [[]]), [Call(Change(organizationId, 0, Retitle(title)), Begin, false)], {});
    var renewed := Next(Next(s, Go(0, now)), Direct(Operation.StartNew(organizationId, title, now)));
    assert renewed.store.conversations == [record.Closed(now), record];
    assert renewed.store.conversations[1].IsActiveOf(organizationId);
    var t := Next(renewed, Go(0, now)).store;
    assert t.conversations[0].IsActiveOf(organizationId) && t.conversations[1].IsActiveOf(organizationId);
  }

  // ----- any number of interleaved `ensureCanonical` calls

  predicate OfOrg(call: Call, organizationId: string) {
    call.kind.organizationId == organizationId
  }

  predicate OnlyEnsures(actions: seq<Action>) {
    forall i :: 0 <= i < |actions| ==> EnsureAction(actions[i])
  }

  /** No call of the organization is between its list and its create. */
  predicate Settled(s: State, organizationId: string) {
    forall k :: 0 <= k < |s.calls| && OfOrg(s.calls[k], organizationId) ==> !s.calls[k].point.Missing?
  }

  /** No two calls of the organization listed before the first create. */
  predicate OneEarly(s: State, organizationId: string) {
    forall k, l :: (0 <= k < |s.calls| && 0 <= l < |s.calls| && s.calls[k].early && s.calls[l].early
                    && OfOrg(s.calls[k], organizationId) && OfOrg(s.calls[l], organizationId)) ==> k == l
  }

  predicate Creator(s: State, k: nat, organizationId: string)
    requires k < |s.calls|
  {
    OfOrg(s.calls[k], organizationId) && s.calls[k].point.Over? && s.calls[k].point.created.Some?
  }

  /** When one was active at the start, every list finds it. */
  ghost predicate Served(s: State, organizationId: string) {
    s.store.HasActive(organizationId) && OneActive(s.store, organizationId) && Settled(s, organizationId)
  }

  /** When none was: the active conversations are those created, one by each early call that is over. */
  ghost predicate Racing(s: State, organizationId: string) {
    && (s.store.HasActive(organizationId) <==> organizationId in s.created)
    && (forall k :: 0 <= k < |s.calls| && OfOrg(s.calls[k], organizationId) ==>
          (s.calls[k].early <==> s.calls[k].point.Missing? || Creator(s, k, organizationId)))
    && (forall k :: 0 <= k < |s.calls| && Creator(s, k, organizationId) ==>
          s.calls[k].point.created.value < |s.store.conversations|
          && s.store.conversations[s.calls[k].point.created.value].IsActiveOf(organizationId))
    && (forall k, l :: (0 <= k < |s.calls| && 0 <= l < |s.calls| && Creator(s, k, organizationId)
                        && Creator(s, l, organizationId) && s.calls[k].point.created == s.calls[l].point.created) ==> k == l)
    && (forall i :: 0 <= i < |s.store.conversations| && s.store.conversations[i].IsActiveOf(organizationId) ==>
          exists k :: 0 <= k < |s.calls| && Creator(s, k, organizationId) && s.calls[k].point.created == Some(i))
  }

  ghost predicate AllEnsure(s: State) {
    forall k :: 0 <= k < |s.calls| ==> s.calls[k].kind.Ensure? && !s.calls[k].point.Copied?
  }

  predicate EnsureAction(a: Action) {
    !a.Direct? && (a.Start? ==> a.kind.Ensure?)
  }

  lemma AllEnsureStep(s: State, a: Action)
    requires Inv(s) && AllEnsure(s) && EnsureAction(a)
    ensures AllEnsure(Next(s, a))
  {
  }

  lemma ServedStep(s: State, a: Action, organizationId: string)
    requires Inv(s) && AllEnsure(s) && EnsureAction(a) && Served(s, organizationId)
    ensures Served(Next(s, a), organizationId)
  {
    var t := Next(s, a);
    var i :| 0 <= i < |s.store.conversations| && s.store.conversations[i].IsActiveOf(organizationId);
    assert t.store.conversations[i].IsActiveOf(organizationId);
  }

  lemma RacingCreate(s: State, k: nat, now: int, organizationId: string)
    requires Inv(s) && AllEnsure(s) && Racing(s, organizationId)
    requires k < |s.calls| && s.calls[k].point.Missing? && OfOrg(s.calls[k], organizationId)
    ensures Racing(Next(s, Go(k, now)), organizationId)
  {
    var t, n := Next(s, Go(k, now)), |s.store.conversations|;
    assert t.store.conversations[n].IsActiveOf(organizationId);
    assert Creator(t, k, organizationId);
    forall i | 0 <= i < |t.store.conversations| && t.store.conversations[i].IsActiveOf(organizationId)
      ensures exists l :: 0 <= l < |t.calls| && Creator(t, l, organizationId) && t.calls[l].point.created == Some(i)
    {
      if i < n {
        var l :| 0 <= l < |s.calls| && Creator(s, l, organizationId) && s.calls[l].point.created == Some(i);
        assert Creator(t, l, organizationId);
      }
    }
  }

  lemma RacingList(s: State, k: nat, now: int, organizationId: string)
    requires Inv(s) && AllEnsure(s) && Racing(s, organizationId) && k < |s.calls| && s.calls[k].point.Begin?
    ensures Racing(Next(s, Go(k, now)), organizationId)
  {
    SameCreators(s, Next(s, Go(k, now)), organizationId);
  }

  /** The calls that created stay, and the conversations of the organization do too. */
  lemma SameCreators(s: State, t: State, organizationId: string)
    requires Racing(s, organizationId) && |s.calls| <= |t.calls| && |s.store.conversations| <= |t.store.conversations|
    requires forall l :: 0 <= l < |t.calls| ==>
               (Creator(t, l, organizationId) <==> l < |s.calls| && Creator(s, l, organizationId))
    requires forall l :: 0 <= l < |s.calls| && Creator(s, l, organizationId) ==> t.calls[l] == s.calls[l]
    requires forall i :: 0 <= i < |t.store.conversations| ==>
               (t.store.conversations[i].IsActiveOf(organizationId) <==>
                i < |s.store.conversations| && s.store.conversations[i].IsActiveOf(organizationId))
    requires organizationId in t.created <==> organizationId in s.created
    requires forall l :: 0 <= l < |t.calls| && OfOrg(t.calls[l], organizationId) ==>
               (t.calls[l].early <==> t.calls[l].point.Missing? || Creator(t, l, organizationId))
    ensures Racing(t, organizationId)
  {
    forall i | 0 <= i < |t.store.conversations| && t.store.conversations[i].IsActiveOf(organizationId)
      ensures exists l :: 0 <= l < |t.calls| && Creator(t, l, organizationId) && t.calls[l].point.created == Some(i)
    {
      var l :| 0 <= l < |s.calls| && Creator(s, l, organizationId) && s.calls[l].point.created == Some(i);
      assert Creator(t, l, organizationId);
    }
    if s.store.HasActive(organizationId) {
      var i :| 0 <= i < |s.store.conversations| && s.store.conversations[i].IsActiveOf(organizationId);
      assert t.store.conversations[i].IsActiveOf(organizationId);
    }
  }

  lemma RacingStep(s: State, a: Action, organizationId: string)
    requires Inv(s) && AllEnsure(s) && EnsureAction(a) && Racing(s, organizationId)
    ensures Racing(Next(s, a), organizationId)
  {
    if Enabled(s, a) {
      match a
      case Start(_) => SameCreators(s, Next(s, a), organizationId);
      case Go(k, now) =>
        assert Sound(s, s.calls[k]);
        if s.calls[k].point.Begin? {
          RacingList(s, k, now, organizationId);
        } else if OfOrg(s.calls[k], organizationId) {
          RacingCreate(s, k, now, organizationId);
        } else {
          SameCreators(s, Next(s, a), organizationId);
        }
    }
  }

  lemma {:induction false} EnsuresAt(store: Store, actions: seq<Action>, organizationId: string, i: nat)
    requires store.Valid() && OneActive(store, organizationId) && OnlyEnsures(actions) && i <= |actions|
    ensures var s := At(State(store, [], {}), actions, i);
      && Inv(s) && AllEnsure(s)
      && (store.HasActive(organizationId) ==> Served(s, organizationId))
      && (!store.HasActive(organizationId) ==> Racing(s, organizationId))
    decreases i
  {
    if i > 0 {
      EnsuresAt(store, actions, organizationId, i - 1);
      var s := At(State(store, [], {}), actions, i - 1);
      StepKeepsInv(s, actions[i - 1]);
      AllEnsureStep(s, actions[i - 1]);
      if store.HasActive(organizationId) {
        ServedStep(s, actions[i - 1], organizationId);
      } else {
        RacingStep(s, actions[i - 1], organizationId);
      }
    }
  }

  /** What the race comes to: as many active conversations as early calls. */
  lemma RacedIff(s: State, organizationId: string)
    requires Racing(s, organizationId) && Settled(s, organizationId)
    ensures OneActive(s.store, organizationId) <==> OneEarly(s, organizationId)
  {
    if OneActive(s.store, organizationId) {
      forall k, l | 0 <= k < |s.calls| && 0 <= l < |s.calls| && s.calls[k].early && s.calls[l].early
                    && OfOrg(s.calls[k], organizationId) && OfOrg(s.calls[l], organizationId)
        ensures k == l
      {
        assert Creator(s, k, organizationId) && Creator(s, l, organizationId);
      }
    }
    if OneEarly(s, organizationId) {
      forall i, j | 0 <= i < |s.store.conversations| && 0 <= j < |s.store.conversations|
                    && s.store.conversations[i].IsActiveOf(organizationId) && s.store.conversations[j].IsActiveOf(organizationId)
        ensures i == j
      {
        var k :| 0 <= k < |s.calls| && Creator(s, k, organizationId) && s.calls[k].point.created == Some(i);
        var l :| 0 <= l < |s.calls| && Creator(s, l, organizationId) && s.calls[l].point.created == Some(j);
        assert s.calls[k].early && s.calls[l].early;
      }
    }
  }

  /**
    Any number of interleaved calls, once none is between list and create, leave at most one
    active conversation iff one was active at the start or no two listed before the first create.
   */
  lemma EnsuresLeaveOneIff(store: Store, actions: seq<Action>, organizationId: string)
    requires store.Valid() && OneActive(store, organizationId) && OnlyEnsures(actions)
    requires Settled(At(State(store, [], {}), actions, |actions|), organizationId)
    ensures var s := At(State(store, [], {}), actions, |actions|);
      OneActive(s.store, organizationId) <==> store.HasActive(organizationId) || OneEarly(s, organizationId)
  {
    EnsuresAt(store, actions, organizationId, |actions|);
    if !store.HasActive(organizationId) {
      RacedIff(At(State(store, [], {}), actions, |actions|), organizationId);
    }
  }

  /** Such a run: two calls that list before either creates. */
  lemma TwoCallsRace(organizationId: string, title: string, now: int)
    ensures var call := Call(Ensure(organizationId, title), Begin, false);
      var listed := Next(Next(State(EMPTY, [call, call], {}), Go(0, now)), Go(1, now));
      !OneActive(Next(Next(listed, Go(0, now)), Go(1, now)).store, organizationId)
  {
    var call := Call(Ensure(organizationId, title), Begin, false);
    var listed := Next(Next(State(EMPTY, [call, call], {}), Go(0, now)), Go(1, now));
    assert listed.calls[0].point.Missing? && listed.calls[1].point.Missing?;
    var store := Next(Next(listed, Go(0, now)), Go(1, now)).store;
    assert store.conversations[0].IsActiveOf(organizationId) && store.conversations[1].IsActiveOf(organizationId);
  }
}
