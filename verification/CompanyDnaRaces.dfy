/**
  Updates of one company's record when reading and writing are separate steps: each
  reads the whole record, and one await later writes back a whole new one.  Research
  runs in the background, so that another update may be written in between.

  The record says what was written last exactly when no write puts back what an
  update written since it read has changed.
 */
module CompanyDnaRaces {
  import opened Wrappers
  import opened CompanyDna
  import StepByStep

  /** `seen`: how many updates had been written when the record was read. */
  datatype Point = Begin | Read(copy: Option<Record>, seen: nat) | Over

  datatype Job = Job(change: Change, point: Point)

  /** An update that was written, and the copy it was made from. */
  datatype Written = Written(update: Update, copy: Option<Record>)

  datatype State = State(row: Option<Record>, jobs: seq<Job>, written: seq<Written>)

  datatype Action = Start(change: Change) | Go(k: nat, now: Time)

  const INITIAL: State := State(None, [], [])

  predicate Enabled(s: State, a: Action) {
    a.Go? ==> a.k < |s.jobs| && !s.jobs[a.k].point.Over?
  }

  /** The write that a step makes, if it makes one. */
  predicate IsWrite(s: State, a: Action) {
    a.Go? && Enabled(s, a) && s.jobs[a.k].point.Read?
  }

  function WriteOf(s: State, a: Action): Written
    requires IsWrite(s, a)
  {
    Written(Update(s.jobs[a.k].change, a.now), s.jobs[a.k].point.copy)
  }

  /** All but an intake end without a write when there is no record. */
  function Next(organizationId: string, s: State, a: Action): State {
    if !Enabled(s, a) then s
    else
      match a
      case Start(change) => s.(jobs := s.jobs + [Job(change, Begin)])
      case Go(k, now) =>
        if s.jobs[k].point.Begin? then
          var found := s.row.Some? || s.jobs[k].change.SubmitIntake?;
          s.(jobs := s.jobs[k := s.jobs[k].(point := if found then Read(s.row, |s.written|) else Over)])
        else
          var w := WriteOf(s, a);
          State(Apply(organizationId, w.copy, w.update), s.jobs[k := s.jobs[k].(point := Over)], s.written + [w])
  }

  /** An update that nothing comes between does to the record what it does in a run without interleaving. */
  lemma {:induction false} UpdateAlone(organizationId: string, s: State, change: Change, now: Time)
    ensures var k := |s.jobs|;
      var read := Next(organizationId, Next(organizationId, s, Start(change)), Go(k, now));
      var t := Next(organizationId, read, Go(k, now));
      && t.row == Apply(organizationId, s.row, Update(change, now))
      && t.jobs == s.jobs + [Job(change, Over)]
      && t.written == if s.row.Some? || change.SubmitIntake? then s.written + [Written(Update(change, now), s.row)] else s.written
  {
    var k, begun := |s.jobs|, Next(organizationId, s, Start(change));
    var found := s.row.Some? || change.SubmitIntake?;
    assert begun.jobs[k] == Job(change, Begin);
    var read := Next(organizationId, begun, Go(k, now));
    assert read == begun.(jobs := begun.jobs[k := Job(change, if found then Read(s.row, |s.written|) else Over)]);
  }

  /** A run: the states between the actions, from the first on. */
  ghost predicate Trace(organizationId: string, states: seq<State>, actions: seq<Action>) {
    && |states| == |actions| + 1 && states[0] == INITIAL
    && forall i :: 0 <= i < |actions| ==> states[i + 1] == Next(organizationId, states[i], actions[i])
  }

  // ----- what every step keeps

  ghost predicate SoundJob(s: State, job: Job) {
    job.point.Read? ==>
      && job.point.seen <= |s.written|
      && (job.point.copy.Some? || job.change.SubmitIntake?)
      && (job.point.copy.None? ==> job.point.seen == 0)
  }

  ghost predicate Sound(s: State) {
    && (s.row.None? <==> s.written == [])
    && forall k :: 0 <= k < |s.jobs| ==> SoundJob(s, s.jobs[k])
  }

  lemma StepKeepsSound(organizationId: string, s: State, a: Action)
    requires Sound(s)
    ensures Sound(Next(organizationId, s, a))
  {
    if IsWrite(s, a) {
      assert SoundJob(s, s.jobs[a.k]);
    }
    var t := Next(organizationId, s, a);
    forall k | 0 <= k < |t.jobs| ensures SoundJob(t, t.jobs[k]) {
      assert k < |s.jobs| ==> SoundJob(s, s.jobs[k]);
    }
  }

  lemma {:induction false} TraceIsSound(organizationId: string, states: seq<State>, actions: seq<Action>, i: nat)
    requires Trace(organizationId, states, actions) && i < |states|
    ensures Sound(states[i])
    decreases i
  {
    if i > 0 {
      TraceIsSound(organizationId, states, actions, i - 1);
      StepKeepsSound(organizationId, states[i - 1], actions[i - 1]);
    }
  }

  // ----- facts

  datatype Fact = Fact(value: Value, origin: FactProvenance)

  /** What the last write of the field brought, and under which origin. */
  function Brought(written: seq<Written>, f: Field): Option<Fact> {
    if written == [] then None
    else
      var last := written[|written| - 1];
      if Writes(last.copy, last.update.change, f) then Some(Fact(Offer(last.update.change, f), Origin(last.update.change)))
      else Brought(written[..|written| - 1], f)
  }

  /** The record holds the fact: unbrought, it holds nothing (but for the stamp of a blank goal). */
  ghost predicate HoldsFact(r: Record, f: Field, fact: Option<Fact>) {
    match fact
    case Some(known) => Get(r, f) == known.value && f in r.provenance && r.provenance[f] == known.origin
    case None => Get(r, f) == Nothing && (f in r.provenance ==> f == Objective)
  }

  ghost predicate FactHonest(s: State, f: Field) {
    s.row.Some? ==> HoldsFact(s.row.value, f, Brought(s.written, f))
  }

  /** A write that leaves the field alone, from a copy read before something else was brought for it. */
  predicate PutsBack(s: State, a: Action, f: Field) {
    && IsWrite(s, a) && s.jobs[a.k].point.seen <= |s.written|
    && !Writes(s.jobs[a.k].point.copy, s.jobs[a.k].change, f)
    && Brought(s.written[..s.jobs[a.k].point.seen], f) != Brought(s.written, f)
  }

  ghost predicate FactCopied(s: State, job: Job, f: Field) {
    job.point.Read? && job.point.copy.Some? && job.point.seen <= |s.written| ==>
      HoldsFact(job.point.copy.value, f, Brought(s.written[..job.point.seen], f))
  }

  ghost predicate FactInv(s: State, f: Field) {
    FactHonest(s, f) && forall k :: 0 <= k < |s.jobs| ==> FactCopied(s, s.jobs[k], f)
  }

  /** Two different facts are never held at once, if only the CEO's texts are brought for the objective. */
  lemma FactsDiffer(r: Record, f: Field, a: Option<Fact>, b: Option<Fact>)
    requires HoldsFact(r, f, a) && HoldsFact(r, f, b)
    requires f == Objective ==> (a.Some? ==> a.value.value != Nothing) && (b.Some? ==> b.value.value != Nothing)
    ensures a == b
  {
  }

  lemma {:induction false} ObjectiveIsText(written: seq<Written>)
    ensures Brought(written, Objective).Some? ==> Brought(written, Objective).value.value != Nothing
    ensures Brought(written, Objective).Some? ==> Brought(written, Objective).value.origin == FromCeo
    decreases |written|
  {
    if written != [] {
      ObjectiveIsText(written[..|written| - 1]);
    }
  }

  lemma BroughtNext(written: seq<Written>, w: Written, f: Field)
    ensures Brought(written + [w], f) ==
            if Writes(w.copy, w.update.change, f) then Some(Fact(Offer(w.update.change, f), Origin(w.update.change)))
            else Brought(written, f)
  {
    assert (written + [w])[..|written|] == written;
  }

  /** What a write leaves alone is the copy's; without a copy, nothing. */
  lemma WhatAWriteHolds(organizationId: string, copy: Option<Record>, u: Update, f: Field, fact: Option<Fact>)
    requires copy.Some? || (u.change.SubmitIntake? && fact.None?)
    requires copy.Some? ==> HoldsFact(copy.value, f, fact)
    requires f == Objective && fact.Some? ==> fact.value.origin == FromCeo
    ensures var r := Apply(organizationId, copy, u).value;
      if Writes(copy, u.change, f) then HoldsFact(r, f, Some(Fact(Offer(u.change, f), Origin(u.change))))
      else HoldsFact(r, f, fact)
  {
    UpdateWritesOrKeeps(organizationId, copy, u, f);
  }

  lemma WriteIsHonestIff(organizationId: string, s: State, a: Action, f: Field)
    requires Sound(s) && FactInv(s, f) && IsWrite(s, a)
    ensures FactHonest(Next(organizationId, s, a), f) <==> !PutsBack(s, a, f)
  {
    var job, w := s.jobs[a.k], WriteOf(s, a);
    assert SoundJob(s, job) && FactCopied(s, job, f);
    var earlier, latest := Brought(s.written[..job.point.seen], f), Brought(s.written, f);
    ObjectiveIsText(s.written);
    ObjectiveIsText(s.written[..job.point.seen]);
    BroughtNext(s.written, w, f);
    WhatAWriteHolds(organizationId, w.copy, w.update, f, earlier);
    if !Writes(w.copy, w.update.change, f) && FactHonest(Next(organizationId, s, a), f) {
      FactsDiffer(Apply(organizationId, w.copy, w.update).value, f, earlier, latest);
    }
  }

  lemma CopyStays(organizationId: string, s: State, a: Action, f: Field, k: nat)
    requires Sound(s) && FactInv(s, f) && k < |Next(organizationId, s, a).jobs|
    ensures FactCopied(Next(organizationId, s, a), Next(organizationId, s, a).jobs[k], f)
  {
    var t := Next(organizationId, s, a);
    if t.jobs[k].point.Read? {
      if k < |s.jobs| && s.jobs[k].point.Read? {
        assert FactCopied(s, s.jobs[k], f) && SoundJob(s, s.jobs[k]);
        assert t.written[..t.jobs[k].point.seen] == s.written[..s.jobs[k].point.seen];
      } else {
        assert t.written[..t.jobs[k].point.seen] == s.written;
      }
    }
  }

  lemma StepKeepsFactInv(organizationId: string, s: State, a: Action, f: Field)
    requires Sound(s) && FactInv(s, f) && FactHonest(Next(organizationId, s, a), f)
    ensures FactInv(Next(organizationId, s, a), f)
  {
    forall k | 0 <= k < |Next(organizationId, s, a).jobs|
      ensures FactCopied(Next(organizationId, s, a), Next(organizationId, s, a).jobs[k], f)
    {
      CopyStays(organizationId, s, a, f, k);
    }
  }

  lemma HonestNextIff(organizationId: string, s: State, a: Action, f: Field)
    requires Sound(s) && FactInv(s, f)
    ensures FactHonest(Next(organizationId, s, a), f) <==> !PutsBack(s, a, f)
    ensures FactHonest(Next(organizationId, s, a), f) ==> FactInv(Next(organizationId, s, a), f)
  {
    if IsWrite(s, a) {
      WriteIsHonestIff(organizationId, s, a, f);
    }
    if FactHonest(Next(organizationId, s, a), f) {
      StepKeepsFactInv(organizationId, s, a, f);
    }
  }

  ghost predicate AlwaysHolds(states: seq<State>, f: Field) {
    forall i :: 0 <= i < |states| ==> FactHonest(states[i], f)
  }

  ghost predicate NonePutsBack(states: seq<State>, actions: seq<Action>, f: Field)
    requires |states| == |actions| + 1
  {
    forall i :: 0 <= i < |actions| ==> !PutsBack(states[i], actions[i], f)
  }

  lemma EveryStepIsHonest(organizationId: string, states: seq<State>, actions: seq<Action>, f: Field, i: nat)
    requires Trace(organizationId, states, actions) && i < |actions| && FactInv(states[i], f)
    ensures FactHonest(states[i + 1], f) <==> !PutsBack(states[i], actions[i], f)
    ensures FactHonest(states[i + 1], f) ==> FactInv(states[i + 1], f)
  {
    TraceIsSound(organizationId, states, actions, i);
    HonestNextIff(organizationId, states[i], actions[i], f);
  }

  /**
    Over every run of interleaved updates, a field holds throughout what was last written of it,
    under its origin, exactly when no write that leaves it alone uses a copy read before
    something else was brought for it.
   */
  lemma FactsAreHonestIff(organizationId: string, states: seq<State>, actions: seq<Action>, f: Field)
    requires Trace(organizationId, states, actions)
    ensures AlwaysHolds(states, f) <==> NonePutsBack(states, actions, f)
  {
    var holds := (s: State) => FactHonest(s, f);
    var inv := (s: State) => FactInv(s, f);
    var breaks := (s: State, a: Action) => PutsBack(s, a, f);
    forall i | 0 <= i < |actions| ensures StepByStep.Step(holds, inv, breaks, states[i], actions[i], states[i + 1]) {
      if FactInv(states[i], f) {
        EveryStepIsHonest(organizationId, states, actions, f, i);
      }
    }
    StepByStep.AllAlong(holds, inv, breaks, states, actions);
  }

  // ----- the confirmation

  /** The last change of the facts that was written is a confirmation. */
  predicate LastConfirms(written: seq<Written>) {
    written != [] &&
    var last := written[|written| - 1].update.change;
    if last.Reach? then LastConfirms(written[..|written| - 1]) else last.Confirm?
  }

  ghost predicate CurrentHonest(s: State) {
    ConfirmationCurrent(s.row) <==> LastConfirms(s.written)
  }

  /** A milestone written from a copy that tells otherwise than the record whether the last change was a confirmation. */
  predicate Misleads(s: State, a: Action) {
    && IsWrite(s, a) && s.jobs[a.k].change.Reach? && s.jobs[a.k].point.seen <= |s.written|
    && LastConfirms(s.written[..s.jobs[a.k].point.seen]) != LastConfirms(s.written)
  }

  /** A time at which a change of the facts was written. */
  ghost predicate ChangeTime(written: seq<Written>, t: Time) {
    exists i :: 0 <= i < |written| && !written[i].update.change.Reach? && written[i].update.now == t
  }

  ghost predicate ConfirmedInTime(r: Option<Record>, written: seq<Written>) {
    r.Some? && r.value.ceoConfirmedAt.Some? ==> ChangeTime(written, r.value.ceoConfirmedAt.value)
  }

  /** Changes of the facts are written with strictly increasing times; milestones with any. */
  ghost predicate InTime(s: State, a: Action) {
    IsWrite(s, a) && !s.jobs[a.k].change.Reach? ==>
      forall i :: 0 <= i < |s.written| && !s.written[i].update.change.Reach? ==> s.written[i].update.now < a.now
  }

  ghost predicate CurrentCopied(s: State, job: Job) {
    job.point.Read? && job.point.seen <= |s.written| ==>
      && (ConfirmationCurrent(job.point.copy) <==> LastConfirms(s.written[..job.point.seen]))
      && ConfirmedInTime(job.point.copy, s.written)
  }

  ghost predicate CurrentInv(s: State) {
    && CurrentHonest(s) && ConfirmedInTime(s.row, s.written)
    && forall k :: 0 <= k < |s.jobs| ==> CurrentCopied(s, s.jobs[k])
  }

  lemma LastConfirmsNext(written: seq<Written>, w: Written)
    ensures LastConfirms(written + [w]) <==>
            if w.update.change.Reach? then LastConfirms(written) else w.update.change.Confirm?
  {
    assert (written + [w])[..|written|] == written;
  }

  lemma WrittenStaysInTime(r: Option<Record>, written: seq<Written>, w: Written)
    requires ConfirmedInTime(r, written)
    ensures ConfirmedInTime(r, written + [w])
  {
    if r.Some? && r.value.ceoConfirmedAt.Some? {
      var t := r.value.ceoConfirmedAt.value;
      var i :| 0 <= i < |written| && !written[i].update.change.Reach? && written[i].update.now == t;
      assert (written + [w])[i] == written[i];
    }
  }

  lemma WriteIsCurrentIff(organizationId: string, s: State, a: Action)
    requires Sound(s) && CurrentInv(s) && IsWrite(s, a) && InTime(s, a)
    ensures CurrentHonest(Next(organizationId, s, a)) <==> !Misleads(s, a)
    ensures ConfirmedInTime(Next(organizationId, s, a).row, Next(organizationId, s, a).written)
  {
    var job, w := s.jobs[a.k], WriteOf(s, a);
    assert SoundJob(s, job) && CurrentCopied(s, job);
    LastConfirmsNext(s.written, w);
    CurrentAfterUpdateIff(organizationId, w.copy, w.update);
    TimesAfter(organizationId, w.copy, w.update);
    WrittenStaysInTime(w.copy, s.written, w);
    assert (s.written + [w])[|s.written|] == w;
  }

  lemma StepKeepsCurrentInv(organizationId: string, s: State, a: Action)
    requires Sound(s) && CurrentInv(s) && InTime(s, a) && CurrentHonest(Next(organizationId, s, a))
    ensures CurrentInv(Next(organizationId, s, a))
  {
    var t := Next(organizationId, s, a);
    if IsWrite(s, a) {
      WriteIsCurrentIff(organizationId, s, a);
    }
    forall k | 0 <= k < |t.jobs| ensures CurrentCopied(t, t.jobs[k]) {
      if t.jobs[k].point.Read? {
        if k < |s.jobs| && s.jobs[k].point.Read? {
          assert CurrentCopied(s, s.jobs[k]) && SoundJob(s, s.jobs[k]);
          assert t.written[..t.jobs[k].point.seen] == s.written[..s.jobs[k].point.seen];
          if IsWrite(s, a) {
            WrittenStaysInTime(t.jobs[k].point.copy, s.written, WriteOf(s, a));
          }
        } else {
          assert t.written[..t.jobs[k].point.seen] == s.written;
        }
      }
    }
  }

  ghost predicate AllInTime(states: seq<State>, actions: seq<Action>)
    requires |states| == |actions| + 1
  {
    forall i :: 0 <= i < |actions| ==> InTime(states[i], actions[i])
  }

  lemma CurrentNextIff(organizationId: string, s: State, a: Action)
    requires Sound(s) && CurrentInv(s) && InTime(s, a)
    ensures CurrentHonest(Next(organizationId, s, a)) <==> !Misleads(s, a)
    ensures CurrentHonest(Next(organizationId, s, a)) ==> CurrentInv(Next(organizationId, s, a))
  {
    if IsWrite(s, a) {
      WriteIsCurrentIff(organizationId, s, a);
    }
    if CurrentHonest(Next(organizationId, s, a)) {
      StepKeepsCurrentInv(organizationId, s, a);
    }
  }

  ghost predicate AlwaysHonest(states: seq<State>) {
    forall i :: 0 <= i < |states| ==> CurrentHonest(states[i])
  }

  ghost predicate NoneMisleads(states: seq<State>, actions: seq<Action>)
    requires |states| == |actions| + 1
  {
    forall i :: 0 <= i < |actions| ==> !Misleads(states[i], actions[i])
  }

  lemma EveryStepIsCurrent(organizationId: string, states: seq<State>, actions: seq<Action>, i: nat)
    requires Trace(organizationId, states, actions) && AllInTime(states, actions) && i < |actions| && CurrentInv(states[i])
    ensures CurrentHonest(states[i + 1]) <==> !Misleads(states[i], actions[i])
    ensures CurrentHonest(states[i + 1]) ==> CurrentInv(states[i + 1])
  {
    TraceIsSound(organizationId, states, actions, i);
    CurrentNextIff(organizationId, states[i], actions[i]);
  }

  /**
    Over every run of interleaved updates whose changes carry strictly increasing times, "current"
    means throughout that the last change written was a confirmation, exactly when no milestone is
    written from a copy on whose last change that differs.
   */
  lemma CurrencyIsHonestIff(organizationId: string, states: seq<State>, actions: seq<Action>)
    requires Trace(organizationId, states, actions) && AllInTime(states, actions)
    ensures AlwaysHonest(states) <==> NoneMisleads(states, actions)
  {
    var holds := (s: State) => CurrentHonest(s);
    var inv := (s: State) => CurrentInv(s);
    var breaks := (s: State, a: Action) => Misleads(s, a);
    forall i | 0 <= i < |actions| ensures StepByStep.Step(holds, inv, breaks, states[i], actions[i], states[i + 1]) {
      if CurrentInv(states[i]) {
        EveryStepIsCurrent(organizationId, states, actions, i);
      }
    }
    StepByStep.AllAlong(holds, inv, breaks, states, actions);
  }

  // ----- writes that are up to date, and one that is not

  /** Nothing was written since the copy was read. */
  predicate UpToDate(s: State, a: Action) {
    IsWrite(s, a) ==> s.jobs[a.k].point.seen == |s.written|
  }

  /** A write that is up to date neither puts anything back nor misleads. */
  lemma UpToDateIsHarmless(s: State, a: Action, f: Field)
    requires UpToDate(s, a)
    ensures !PutsBack(s, a, f) && !Misleads(s, a)
  {
    assert s.written[..|s.written|] == s.written;
  }

  /** An input: a milestone read before a confirmation and written after it takes the confirmation away. */
  lemma MilestoneUndoesAConfirmation(organizationId: string, r: Record, c: Corrections, m: Milestone, written: seq<Written>, now: Time)
    requires r.ceoConfirmedAt.None?
    ensures var s := State(Some(r), [Job(Reach(m), Begin), Job(Confirm(c), Begin)], written);
      var confirmed := Next(organizationId, Next(organizationId, Next(organizationId, s, Go(0, now)), Go(1, now)), Go(1, now));
      && ConfirmationCurrent(confirmed.row) && LastConfirms(confirmed.written)
      && !ConfirmationCurrent(Next(organizationId, confirmed, Go(0, now)).row)
      && LastConfirms(Next(organizationId, confirmed, Go(0, now)).written)
  {
    var s := State(Some(r), [Job(Reach(m), Begin), Job(Confirm(c), Begin)], written);
    var confirmed := Next(organizationId, Next(organizationId, Next(organizationId, s, Go(0, now)), Go(1, now)), Go(1, now));
    assert confirmed.jobs[0] == Job(Reach(m), Read(Some(r), |written|));
    var w := Written(Update(Confirm(c), now), Some(r));
    assert confirmed.written == written + [w];
    LastConfirmsNext(written, w);
    LastConfirmsNext(written + [w], Written(Update(Reach(m), now), Some(r)));
  }
}
