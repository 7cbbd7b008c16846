/**
  The durable understanding of a company: what intake, research, confirmation and
  milestones write into one record, and what the readiness gate reads from it.
 */
module CompanyDna {
  import opened Wrappers

  datatype FactProvenance = FromResearch | FromCeo | Inferred

  /** The fields whose origin is tracked. */
  datatype Field =
    | CompanyName | Website | Description | Country | Objective | Products | Customers
    | Geography | BusinessModel | Positioning | DeclaredTools

  /** Timestamps are milliseconds of one clock. */
  type Time = int

  datatype Record = Record(
    organizationId: string,
    companyName: string,
    website: Option<string>,
    description: Option<string>,
    country: Option<string>,
    companySize: Option<string>,
    objective: Option<string>,
    products: seq<string>,
    customers: seq<string>,
    geography: Option<string>,
    businessModel: Option<string>,
    positioning: Option<string>,
    declaredTools: seq<string>,
    uncertainties: seq<string>,
    provenance: map<Field, FactProvenance>,
    researchCompletedAt: Option<Time>,
    blockingDiscoveryCompletedAt: Option<Time>,
    ceoConfirmedAt: Option<Time>,
    departmentProvisionedAt: Option<Time>,
    factsUpdatedAt: Time)

  datatype Intake = Intake(
    companyName: string,
    url: Option<string>,
    description: Option<string>,
    country: Option<string>,
    companySize: Option<string>,
    goal: string)

  datatype Interpreted = Interpreted(
    activity: Option<string>,
    products: seq<string>,
    services: seq<string>,
    market: Option<string>,
    positioning: Option<string>,
    targetAudience: seq<string>,
    locations: seq<string>)

  datatype Corrections = Corrections(
    companyName: Option<string>,
    description: Option<string>,
    objective: Option<string>,
    geography: Option<string>,
    products: Option<seq<string>>,
    customers: Option<seq<string>>,
    declaredTools: Option<seq<string>>)

  datatype Milestone = ResearchCompleted | BlockingDiscoveryCompleted | DepartmentProvisioned

  // ----- texts

  predicate IsSpace(c: char) {
    c in {'\t', '\n', '\U{000B}', '\U{000C}', '\r', ' ', '\U{00A0}', '\U{1680}', '\U{2028}', '\U{2029}',
          '\U{202F}', '\U{205F}', '\U{3000}', '\U{FEFF}'} || '\U{2000}' <= c <= '\U{200A}'
  }

  function Trim(text: string): string {
    if text == "" then ""
    else if IsSpace(text[0]) then Trim(text[1..])
    else if IsSpace(text[|text| - 1]) then Trim(text[..|text| - 1])
    else text
  }

  predicate HasText(text: Option<string>) {
    text.Some? && Trim(text.value) != ""
  }

  /** A string that is present and not empty: what a JavaScript condition accepts. */
  predicate Truthy(text: Option<string>) {
    text.Some? && text.value != ""
  }

  function NonBlank(texts: seq<string>): seq<string> {
    if texts == [] then []
    else (if HasText(Some(texts[0])) then [texts[0]] else []) + NonBlank(texts[1..])
  }

  function Trimmed(text: Option<string>): Option<string> {
    if HasText(text) then Some(Trim(text.value)) else None
  }

  function OrElse<T>(first: Option<T>, second: Option<T>): Option<T> {
    if first.Some? then first else second
  }

  /** Some character of the text is no space. */
  ghost predicate Says(text: string) {
    exists k :: 0 <= k < |text| && !IsSpace(text[k])
  }

  ghost predicate Told(text: Option<string>) {
    text.Some? && Says(text.value)
  }

  ghost predicate AllSpace(text: string) {
    forall k :: 0 <= k < |text| ==> IsSpace(text[k])
  }

  /** What is cut off on either side is all space, and what is left begins and ends with something else. */
  lemma {:induction false} TrimCutsSpaces(text: string) returns (i: nat, j: nat)
    ensures IsTrimmedTo(text, i, j) && Trim(text) == text[i..j]
    decreases |text|
  {
    i, j := 0, |text|;
    if text != "" && IsSpace(text[0]) {
      var from, to := TrimCutsSpaces(text[1..]);
      i, j := from + 1, to + 1;
      SpaceInFront(text, from, to);
    } else if text != "" && IsSpace(text[|text| - 1]) {
      i, j := TrimCutsSpaces(text[..|text| - 1]);
      SpaceBehind(text, i, j);
    }
  }

  ghost predicate IsTrimmedTo(text: string, i: nat, j: nat) {
    && i <= j <= |text| && AllSpace(text[..i]) && AllSpace(text[j..])
    && (i < j ==> !IsSpace(text[i]) && !IsSpace(text[j - 1]))
  }

  lemma SpaceInFront(text: string, i: nat, j: nat)
    requires text != "" && IsSpace(text[0]) && IsTrimmedTo(text[1..], i, j)
    ensures IsTrimmedTo(text, i + 1, j + 1) && text[1..][i..j] == text[i + 1..j + 1]
  {
    assert text[..i + 1] == [text[0]] + text[1..][..i];
    assert text[j + 1..] == text[1..][j..];
  }

  lemma SpaceBehind(text: string, i: nat, j: nat)
    requires text != "" && IsSpace(text[|text| - 1]) && IsTrimmedTo(text[..|text| - 1], i, j)
    ensures IsTrimmedTo(text, i, j) && text[..|text| - 1][i..j] == text[i..j]
  {
    assert text[..i] == text[..|text| - 1][..i];
    assert text[j..] == text[..|text| - 1][j..] + [text[|text| - 1]];
  }

  lemma HasTextIffTold(text: Option<string>)
    ensures HasText(text) <==> Told(text)
  {
    if text.Some? {
      var t := text.value;
      var i, j := TrimCutsSpaces(t);
      if i == j {
        assert t == t[..i] + t[j..];
      }
    }
  }

  /** The texts that say something, in their order: a filter is known by its single texts and by concatenation. */
  lemma {:induction false} NonBlankFilters(texts: seq<string>, more: seq<string>)
    ensures NonBlank(texts + more) == NonBlank(texts) + NonBlank(more)
    ensures forall text :: NonBlank([text]) == if Says(text) then [text] else []
    decreases |texts|
  {
    forall text ensures NonBlank([text]) == if Says(text) then [text] else [] {
      HasTextIffTold(Some(text));
    }
    if texts == [] {
      assert texts + more == more;
    } else {
      NonBlankFilters(texts[1..], more);
      assert (texts + more)[1..] == texts[1..] + more;
    }
  }

  // ----- the projections

  function EmptyRecord(organizationId: string): Record {
    Record(organizationId, "", None, None, None, None, None, [], [], None, None, None, [], [], map[],
           None, None, None, None, 0)
  }

  /** Every field written gets the origin of the update; the others keep theirs. */
  function Stamp(provenance: map<Field, FactProvenance>, written: set<Field>, origin: FactProvenance)
    : map<Field, FactProvenance>
  {
    map f | f in provenance.Keys + written :: if f in written then origin else provenance[f]
  }

  predicate IntakeStamps(intake: Intake, f: Field) {
    match f
    case CompanyName => true
    case Website => Truthy(intake.url)
    case Description => Truthy(intake.description)
    case Country => Truthy(intake.country)
    case Objective => intake.goal != ""
    case _ => false
  }

  function ProjectIntake(organizationId: string, intake: Intake, now: Time, existing: Option<Record>): Record {
    var base := existing.GetOr(EmptyRecord(organizationId));
    base.(
      organizationId := organizationId,
      companyName := intake.companyName,
      website := if Truthy(intake.url) then intake.url else base.website,
      description := if Truthy(intake.description) then intake.description else base.description,
      country := if Truthy(intake.country) then intake.country else base.country,
      companySize := if Truthy(intake.companySize) then intake.companySize else base.companySize,
      objective := if HasText(Some(intake.goal)) then Some(intake.goal) else base.objective,
      provenance := Stamp(base.provenance, (set f: Field | IntakeStamps(intake, f)), FromCeo),
      factsUpdatedAt := now)
  }

  function FirstNonBlank(texts: seq<string>): Option<string> {
    var found := NonBlank(texts);
    if found == [] then None else Some(found[0])
  }

  predicate ResearchStamps(r: Record, found: Interpreted, f: Field) {
    match f
    case Products => NonBlank(found.products + found.services) != []
    case Customers => NonBlank(found.targetAudience) != []
    case Geography => FirstNonBlank(found.locations).Some?
    case Positioning => HasText(found.positioning)
    case BusinessModel => HasText(found.market)
    case Description => !HasText(r.description) && HasText(found.activity)
    case _ => false
  }

  function ProjectResearch(r: Record, found: Interpreted, now: Time): Record {
    var products := NonBlank(found.products + found.services);
    var customers := NonBlank(found.targetAudience);
    var geography := FirstNonBlank(found.locations);
    r.(
      products := if products != [] then products else r.products,
      customers := if customers != [] then customers else r.customers,
      geography := OrElse(geography, r.geography),
      positioning := if HasText(found.positioning) then found.positioning else r.positioning,
      businessModel := if HasText(found.market) then found.market else r.businessModel,
      description := if !HasText(r.description) && HasText(found.activity) then found.activity else r.description,
      uncertainties := (if products == [] then ["products"] else []) + (if customers == [] then ["customers"] else [])
                       + (if geography.None? && !HasText(r.country) then ["geography"] else []),
      provenance := Stamp(r.provenance, (set f: Field | ResearchStamps(r, found, f)), FromResearch),
      researchCompletedAt := Some(now),
      factsUpdatedAt := now)
  }

  predicate Given(list: Option<seq<string>>) {
    list.Some? && list.value != []
  }

  predicate ConfirmationStamps(c: Corrections, f: Field) {
    match f
    case CompanyName => HasText(c.companyName)
    case Description => HasText(c.description)
    case Objective => HasText(c.objective)
    case Geography => HasText(c.geography)
    case Products => Given(c.products)
    case Customers => Given(c.customers)
    case DeclaredTools => c.declaredTools.Some?
    case _ => false
  }

  function ApplyCeoConfirmation(r: Record, c: Corrections, now: Time): Record {
    r.(
      companyName := Trimmed(c.companyName).GetOr(r.companyName),
      description := OrElse(Trimmed(c.description), r.description),
      objective := OrElse(Trimmed(c.objective), r.objective),
      geography := OrElse(Trimmed(c.geography), r.geography),
      products := if Given(c.products) then NonBlank(c.products.value) else r.products,
      customers := if Given(c.customers) then NonBlank(c.customers.value) else r.customers,
      declaredTools := if c.declaredTools.Some? then NonBlank(c.declaredTools.value) else r.declaredTools,
      provenance := Stamp(r.provenance, (set f: Field | ConfirmationStamps(c, f)), FromCeo),
      factsUpdatedAt := now,
      ceoConfirmedAt := Some(now))
  }

  function WithMilestone(r: Record, milestone: Milestone, now: Time): Record {
    match milestone
    case ResearchCompleted => r.(researchCompletedAt := Some(now))
    case BlockingDiscoveryCompleted => r.(blockingDiscoveryCompletedAt := Some(now))
    case DepartmentProvisioned => r.(departmentProvisionedAt := Some(now))
  }

  // ----- what is read from the record

  datatype Gap = MissingName | MissingActivity | MissingObjective | MissingGeography

  function DnaGaps(record: Option<Record>): seq<Gap> {
    match record
    case None => [MissingName, MissingActivity, MissingObjective, MissingGeography]
    case Some(r) =>
      (if HasText(Some(r.companyName)) then [] else [MissingName])
      + (if !HasText(r.description) && r.products == [] then [MissingActivity] else [])
      + (if HasText(r.objective) then [] else [MissingObjective])
      + (if !HasText(r.geography) && !HasText(r.country) then [MissingGeography] else [])
  }

  predicate Complete(record: Option<Record>) {
    DnaGaps(record) == []
  }

  predicate ConfirmationCurrent(record: Option<Record>) {
    record.Some? && record.value.ceoConfirmedAt.Some? && record.value.ceoConfirmedAt.value >= record.value.factsUpdatedAt
  }

  datatype Facts = Facts(
    hasIntake: bool,
    hasCompanyDna: bool,
    ceoConfirmed: bool,
    blockingDiscoveryComplete: bool,
    departmentProvisioned: bool)

  function ReadinessFacts(record: Option<Record>): Facts {
    match record
    case None => Facts(false, false, false, false, false)
    case Some(r) => Facts(
      HasText(Some(r.companyName)) && (HasText(r.website) || HasText(r.description)),
      r.researchCompletedAt.Some? && Complete(record),
      ConfirmationCurrent(record),
      r.blockingDiscoveryCompletedAt.Some?,
      r.departmentProvisionedAt.Some?)
  }

  datatype Need = NeedIntake | NeedResearch | NeedConfirmation | NeedDiscovery | NeedDepartment

  function MissingNeeds(f: Facts): seq<Need> {
    (if f.hasIntake then [] else [NeedIntake])
    + (if f.hasCompanyDna then [] else [NeedResearch])
    + (if f.ceoConfirmed then [] else [NeedConfirmation])
    + (if f.blockingDiscoveryComplete then [] else [NeedDiscovery])
    + (if f.departmentProvisioned then [] else [NeedDepartment])
  }

  predicate Ready(record: Option<Record>) {
    MissingNeeds(ReadinessFacts(record)) == []
  }

  datatype Stage = IntakeStage | ResearchStage | DiscoveryStage | UnderstandingStage | ReadyStage

  function OnboardingStage(record: Option<Record>): Stage {
    var f := ReadinessFacts(record);
    if record.None? || !f.hasIntake then IntakeStage
    else if !f.hasCompanyDna then ResearchStage
    else if !f.blockingDiscoveryComplete then DiscoveryStage
    else if !f.ceoConfirmed then UnderstandingStage
    else ReadyStage
  }

  // ----- runs of updates

  datatype Change =
    | SubmitIntake(intake: Intake)
    | Research(found: Interpreted)
    | Confirm(corrections: Corrections)
    | Reach(milestone: Milestone)

  datatype Update = Update(change: Change, now: Time)

  /** Only an intake creates the record; the others leave an absent one absent. */
  function Apply(organizationId: string, record: Option<Record>, u: Update): Option<Record> {
    match u.change
    case SubmitIntake(intake) => Some(ProjectIntake(organizationId, intake, u.now, record))
    case Research(found) => if record.None? then None else Some(ProjectResearch(record.value, found, u.now))
    case Confirm(corrections) => if record.None? then None else Some(ApplyCeoConfirmation(record.value, corrections, u.now))
    case Reach(milestone) => if record.None? then None else Some(WithMilestone(record.value, milestone, u.now))
  }

  function After(organizationId: string, updates: seq<Update>): Option<Record> {
    if updates == [] then None
    else Apply(organizationId, After(organizationId, updates[..|updates| - 1]), updates[|updates| - 1])
  }

  // ----- confirmation

  /** The update changes the facts: anything but a milestone, and nothing at all before the first intake. */
  ghost predicate ChangesFacts(organizationId: string, updates: seq<Update>, i: nat)
    requires i < |updates|
  {
    !updates[i].change.Reach? && After(organizationId, updates[..i + 1]).Some?
  }

  ghost predicate Confirms(organizationId: string, updates: seq<Update>, i: nat)
    requires i < |updates|
  {
    ChangesFacts(organizationId, updates, i) && updates[i].change.Confirm?
  }

  ghost predicate LastChange(organizationId: string, updates: seq<Update>, i: nat)
    requires i < |updates|
  {
    && ChangesFacts(organizationId, updates, i)
    && forall j :: i < j < |updates| ==> !ChangesFacts(organizationId, updates, j)
  }

  ghost predicate LastConfirmation(organizationId: string, updates: seq<Update>, i: nat)
    requires i < |updates|
  {
    && Confirms(organizationId, updates, i)
    && forall j :: i < j < |updates| ==> !Confirms(organizationId, updates, j)
  }

  /** The latest change of the facts is a confirmation. */
  ghost predicate LastChangeConfirms(organizationId: string, updates: seq<Update>) {
    exists i :: 0 <= i < |updates| && LastChange(organizationId, updates, i) && updates[i].change.Confirm?
  }

  /** The last change of the facts carries a time no later than the last confirmation's. */
  ghost predicate LastChangeNotLater(organizationId: string, updates: seq<Update>) {
    exists i, c :: 0 <= i < |updates| && 0 <= c < |updates| && LastChange(organizationId, updates, i)
      && LastConfirmation(organizationId, updates, c) && updates[i].now <= updates[c].now
  }

  /** The last change is no confirmation, and yet not later than the last confirmation. */
  ghost predicate UnconfirmedNotLater(organizationId: string, updates: seq<Update>) {
    exists i, c :: 0 <= i < |updates| && 0 <= c < i && LastChange(organizationId, updates, i)
      && !updates[i].change.Confirm? && LastConfirmation(organizationId, updates, c) && updates[i].now <= updates[c].now
  }

  /** What one update does to the confirmation of any record. */
  lemma CurrentAfterUpdateIff(organizationId: string, record: Option<Record>, u: Update)
    requires Apply(organizationId, record, u).Some?
    ensures ConfirmationCurrent(Apply(organizationId, record, u)) <==>
            || u.change.Confirm?
            || (u.change.Reach? && ConfirmationCurrent(record))
            || (record.Some? && record.value.ceoConfirmedAt.Some? && !u.change.Reach? && u.now <= record.value.ceoConfirmedAt.value)
  {
  }

  lemma ChangesOfPrefix(organizationId: string, updates: seq<Update>, i: nat)
    requires i < |updates| - 1
    ensures ChangesFacts(organizationId, updates[..|updates| - 1], i) <==> ChangesFacts(organizationId, updates, i)
    ensures Confirms(organizationId, updates[..|updates| - 1], i) <==> Confirms(organizationId, updates, i)
  {
    assert updates[..|updates| - 1][..i + 1] == updates[..i + 1];
  }

  ghost predicate LastChangeAt(organizationId: string, updates: seq<Update>, t: Time) {
    exists i :: 0 <= i < |updates| && LastChange(organizationId, updates, i) && updates[i].now == t
  }

  ghost predicate LastConfirmationAt(organizationId: string, updates: seq<Update>, t: Time) {
    exists c :: 0 <= c < |updates| && LastConfirmation(organizationId, updates, c) && updates[c].now == t
  }

  lemma SameChanges(organizationId: string, updates: seq<Update>)
    requires updates != []
    ensures var n := |updates| - 1;
      && (forall j :: 0 <= j < n ==> (ChangesFacts(organizationId, updates[..n], j) <==> ChangesFacts(organizationId, updates, j)))
      && (forall j :: 0 <= j < n ==> (Confirms(organizationId, updates[..n], j) <==> Confirms(organizationId, updates, j)))
  {
    forall j | 0 <= j < |updates| - 1
      ensures ChangesFacts(organizationId, updates[..|updates| - 1], j) <==> ChangesFacts(organizationId, updates, j)
      ensures Confirms(organizationId, updates[..|updates| - 1], j) <==> Confirms(organizationId, updates, j)
    {
      ChangesOfPrefix(organizationId, updates, j);
    }
  }

  lemma LastChangeStays(organizationId: string, updates: seq<Update>, i: nat)
    requires i < |updates| - 1 && !ChangesFacts(organizationId, updates, |updates| - 1)
    requires LastChange(organizationId, updates[..|updates| - 1], i)
    ensures LastChange(organizationId, updates, i)
  {
    SameChanges(organizationId, updates);
  }

  lemma LastConfirmationStays(organizationId: string, updates: seq<Update>, c: nat)
    requires c < |updates| - 1 && !Confirms(organizationId, updates, |updates| - 1)
    requires LastConfirmation(organizationId, updates[..|updates| - 1], c)
    ensures LastConfirmation(organizationId, updates, c)
  {
    SameChanges(organizationId, updates);
  }

  /** The times of a record after one more update. */
  lemma TimesAfter(organizationId: string, record: Option<Record>, u: Update)
    ensures var r := Apply(organizationId, record, u);
      && (r.None? <==> record.None? && !u.change.SubmitIntake?)
      && (r.Some? && !u.change.Reach? ==> r.value.factsUpdatedAt == u.now)
      && (r.Some? && u.change.Reach? ==> record.Some? && r.value.factsUpdatedAt == record.value.factsUpdatedAt)
      && (r.Some? && u.change.Confirm? ==> r.value.ceoConfirmedAt == Some(u.now))
      && (r.Some? && !u.change.Confirm? ==>
            r.value.ceoConfirmedAt == if record.Some? then record.value.ceoConfirmedAt else None)
  {
  }

  /** The record's times are those of the last change and of the last confirmation. */
  lemma {:induction false} RecordRemembers(organizationId: string, updates: seq<Update>)
    requires After(organizationId, updates).Some?
    ensures LastChangeAt(organizationId, updates, After(organizationId, updates).value.factsUpdatedAt)
    decreases |updates|
  {
    var n := |updates| - 1;
    assert updates[..n + 1] == updates;
    TimesAfter(organizationId, After(organizationId, updates[..n]), updates[n]);
    if updates[n].change.Reach? {
      RecordRemembers(organizationId, updates[..n]);
      var t := After(organizationId, updates).value.factsUpdatedAt;
      var i :| 0 <= i < n && LastChange(organizationId, updates[..n], i) && updates[..n][i].now == t;
      LastChangeStays(organizationId, updates, i);
    } else {
      assert LastChange(organizationId, updates, n);
    }
  }

  lemma {:induction false} RecordRemembersConfirmation(organizationId: string, updates: seq<Update>)
    ensures var r := After(organizationId, updates);
      if r.Some? && r.value.ceoConfirmedAt.Some?
      then LastConfirmationAt(organizationId, updates, r.value.ceoConfirmedAt.value)
      else forall i :: 0 <= i < |updates| ==> !Confirms(organizationId, updates, i)
    decreases |updates|
  {
    if updates != [] {
      var n := |updates| - 1;
      RecordRemembersConfirmation(organizationId, updates[..n]);
      assert updates[..n + 1] == updates;
      TimesAfter(organizationId, After(organizationId, updates[..n]), updates[n]);
      if Confirms(organizationId, updates, n) {
        assert LastConfirmation(organizationId, updates, n);
      } else {
        var r := After(organizationId, updates);
        if r.Some? && r.value.ceoConfirmedAt.Some? {
          var t := r.value.ceoConfirmedAt.value;
          var c :| 0 <= c < n && LastConfirmation(organizationId, updates[..n], c) && updates[..n][c].now == t;
          LastConfirmationStays(organizationId, updates, c);
        }
        SameChanges(organizationId, updates);
      }
    }
  }

  /** Whatever the clock does, the confirmation is current exactly when the last change is not later than it. */
  lemma CurrentIffLastChangeNotLater(organizationId: string, updates: seq<Update>)
    ensures ConfirmationCurrent(After(organizationId, updates)) <==> LastChangeNotLater(organizationId, updates)
  {
    var r := After(organizationId, updates);
    RecordRemembersConfirmation(organizationId, updates);
    if r.Some? && r.value.ceoConfirmedAt.Some? {
      RecordRemembers(organizationId, updates);
      var i :| 0 <= i < |updates| && LastChange(organizationId, updates, i) && updates[i].now == r.value.factsUpdatedAt;
      var c :| 0 <= c < |updates| && LastConfirmation(organizationId, updates, c)
               && updates[c].now == r.value.ceoConfirmedAt.value;
      assert forall j :: 0 <= j < |updates| && LastChange(organizationId, updates, j) ==> j == i;
      assert forall j :: 0 <= j < |updates| && LastConfirmation(organizationId, updates, j) ==> j == c;
    }
  }

  /** "Current" says that the last change was a confirmation, except when an unconfirmed one carries no later time. */
  lemma CurrentIsHonestIff(organizationId: string, updates: seq<Update>)
    ensures (ConfirmationCurrent(After(organizationId, updates)) <==> LastChangeConfirms(organizationId, updates))
            <==> !UnconfirmedNotLater(organizationId, updates)
  {
    CurrentIffLastChangeNotLater(organizationId, updates);
    if LastChangeConfirms(organizationId, updates) {
      var i :| 0 <= i < |updates| && LastChange(organizationId, updates, i) && updates[i].change.Confirm?;
      assert LastConfirmation(organizationId, updates, i);
      assert LastChangeNotLater(organizationId, updates);
    } else if LastChangeNotLater(organizationId, updates) {
      var i, c :| 0 <= i < |updates| && 0 <= c < |updates| && LastChange(organizationId, updates, i)
                  && LastConfirmation(organizationId, updates, c) && updates[i].now <= updates[c].now;
      assert c < i;
    }
  }

  /** Such a run: an intake in the very millisecond of a confirmation leaves it current. */
  lemma SameInstantKeepsConfirmation(organizationId: string, intake: Intake, c: Corrections, now: Time)
    ensures var updates := [Update(SubmitIntake(intake), now - 1), Update(Confirm(c), now), Update(SubmitIntake(intake), now)];
      ConfirmationCurrent(After(organizationId, updates)) && !LastChangeConfirms(organizationId, updates)
  {
    var u0, u1, u2 := Update(SubmitIntake(intake), now - 1), Update(Confirm(c), now), Update(SubmitIntake(intake), now);
    var updates := [u0, u1, u2];
    assert updates[..3] == updates && updates[..2] == [u0, u1] && updates[..2][..1] == [u0] && updates[..2][..1][..0] == [];
    assert After(organizationId, [u0]).Some?;
    assert After(organizationId, updates[..2]).value.ceoConfirmedAt == Some(now);
    assert ChangesFacts(organizationId, updates, 2);
    assert forall i :: 0 <= i < 3 && LastChange(organizationId, updates, i) ==> i == 2;
  }

  /** Changes of the facts carry strictly increasing times; milestones may carry any. */
  ghost predicate ChangesStrictlyLater(organizationId: string, updates: seq<Update>) {
    forall i, j :: (0 <= i < j < |updates| && ChangesFacts(organizationId, updates, i)
                    && ChangesFacts(organizationId, updates, j)) ==> updates[i].now < updates[j].now
  }

  /** With a strictly increasing clock the confirmation is current exactly when nothing changed the facts after it. */
  lemma CurrentIffLastChangeConfirms(organizationId: string, updates: seq<Update>)
    requires ChangesStrictlyLater(organizationId, updates)
    ensures ConfirmationCurrent(After(organizationId, updates)) <==> LastChangeConfirms(organizationId, updates)
  {
    CurrentIsHonestIff(organizationId, updates);
  }

  /** The gate is open exactly when the stage is "ready" and the department is there. */
  lemma ReadyIffStageAndDepartment(record: Option<Record>)
    ensures Ready(record) <==>
            OnboardingStage(record) == ReadyStage && record.Some? && record.value.departmentProvisionedAt.Some?
  {
  }

  /** The gate read off the fields of the record. */
  lemma {:induction false} ReadyIffFields(r: Record)
    ensures !Ready(None)
    ensures Ready(Some(r)) <==>
            && Says(r.companyName)
            && (Told(r.website) || Told(r.description))
            && (Told(r.description) || r.products != [])
            && Told(r.objective)
            && (Told(r.geography) || Told(r.country))
            && r.researchCompletedAt.Some?
            && r.blockingDiscoveryCompletedAt.Some?
            && r.departmentProvisionedAt.Some?
            && r.ceoConfirmedAt.Some?
            && r.factsUpdatedAt <= r.ceoConfirmedAt.value
  {
    FieldsTold(r);
  }

  lemma FieldsTold(r: Record)
    ensures HasText(Some(r.companyName)) <==> Says(r.companyName)
    ensures forall text :: text in {r.website, r.description, r.objective, r.geography, r.country} ==> (HasText(text) <==> Told(text))
  {
    HasTextIffTold(Some(r.companyName));
    forall text | text in {r.website, r.description, r.objective, r.geography, r.country} ensures HasText(text) <==> Told(text) {
      HasTextIffTold(text);
    }
  }

  /** The five stages read off the fields: each is the earliest whose own condition is unmet. */
  lemma {:induction false} StageIffFields(r: Record)
    ensures OnboardingStage(None) == IntakeStage
    ensures var started := Says(r.companyName) && (Told(r.website) || Told(r.description));
      var understood := r.researchCompletedAt.Some? && Says(r.companyName) && (Told(r.description) || r.products != [])
        && Told(r.objective) && (Told(r.geography) || Told(r.country));
      var discovered := r.blockingDiscoveryCompletedAt.Some?;
      var confirmed := r.ceoConfirmedAt.Some? && r.factsUpdatedAt <= r.ceoConfirmedAt.value;
      var stage := OnboardingStage(Some(r));
      && (stage == IntakeStage <==> !started)
      && (stage == ResearchStage <==> started && !understood)
      && (stage == DiscoveryStage <==> started && understood && !discovered)
      && (stage == UnderstandingStage <==> started && understood && discovered && !confirmed)
      && (stage == ReadyStage <==> started && understood && discovered && confirmed)
  {
    FieldsTold(r);
  }

  /** What the gate reports as missing. */
  lemma {:induction false} NeedsAre(f: Facts)
    ensures NeedIntake in MissingNeeds(f) <==> !f.hasIntake
    ensures NeedResearch in MissingNeeds(f) <==> !f.hasCompanyDna
    ensures NeedConfirmation in MissingNeeds(f) <==> !f.ceoConfirmed
    ensures NeedDiscovery in MissingNeeds(f) <==> !f.blockingDiscoveryComplete
    ensures NeedDepartment in MissingNeeds(f) <==> !f.departmentProvisioned
  {
  }

  /** What the record lacks, gap by gap. */
  lemma {:induction false} GapsIffFields(r: Record)
    ensures MissingName in DnaGaps(Some(r)) <==> !Says(r.companyName)
    ensures MissingActivity in DnaGaps(Some(r)) <==> !Told(r.description) && r.products == []
    ensures MissingObjective in DnaGaps(Some(r)) <==> !Told(r.objective)
    ensures MissingGeography in DnaGaps(Some(r)) <==> !Told(r.geography) && !Told(r.country)
  {
    FieldsTold(r);
  }

  /** An open gate means stage "ready" and a confirmation after the last intake or research. */
  lemma {:induction false} ReadyMeansConfirmedLast(organizationId: string, updates: seq<Update>)
    requires ChangesStrictlyLater(organizationId, updates) && Ready(After(organizationId, updates))
    ensures OnboardingStage(After(organizationId, updates)) == ReadyStage
    ensures exists i :: 0 <= i < |updates| && OnlyMilestonesAfter(updates, i) && updates[i].change.Confirm?
  {
    ReadyIffStageAndDepartment(After(organizationId, updates));
    CurrentIffLastChangeConfirms(organizationId, updates);
    var i :| 0 <= i < |updates| && LastChange(organizationId, updates, i) && updates[i].change.Confirm?;
    MilestonesAfterLastChange(organizationId, updates, i);
  }

  ghost predicate OnlyMilestonesAfter(updates: seq<Update>, i: nat) {
    forall j :: i < j < |updates| ==> updates[j].change.Reach?
  }

  lemma MilestonesAfterLastChange(organizationId: string, updates: seq<Update>, i: nat)
    requires i < |updates| && LastChange(organizationId, updates, i)
    ensures OnlyMilestonesAfter(updates, i)
  {
    forall j | i < j < |updates| ensures updates[j].change.Reach? {
      RecordStays(organizationId, updates, i + 1, j + 1);
      assert !ChangesFacts(organizationId, updates, j);
    }
  }

  lemma {:induction false} RecordStays(organizationId: string, updates: seq<Update>, i: nat, j: nat)
    requires i <= j <= |updates| && After(organizationId, updates[..i]).Some?
    ensures After(organizationId, updates[..j]).Some?
    decreases j
  {
    if i < j {
      RecordStays(organizationId, updates, i, j - 1);
      assert updates[..j][..j - 1] == updates[..j - 1];
    }
  }

  // ----- provenance

  datatype Value = Nothing | Text(text: string) | Texts(texts: seq<string>)

  /** The value of a tracked field; an absent text and an empty list are Nothing. */
  function Get(r: Record, f: Field): Value {
    match f
    case CompanyName => Text(r.companyName)
    case Website => OfText(r.website)
    case Description => OfText(r.description)
    case Country => OfText(r.country)
    case Objective => OfText(r.objective)
    case Products => OfTexts(r.products)
    case Customers => OfTexts(r.customers)
    case Geography => OfText(r.geography)
    case BusinessModel => OfText(r.businessModel)
    case Positioning => OfText(r.positioning)
    case DeclaredTools => OfTexts(r.declaredTools)
  }

  function OfText(text: Option<string>): Value {
    if text.Some? then Text(text.value) else Nothing
  }

  function OfTexts(texts: seq<string>): Value {
    if texts == [] then Nothing else Texts(texts)
  }

  /** The value an update carries for a field, whether or not it is taken over. */
  function Offer(change: Change, f: Field): Value {
    match change
    case SubmitIntake(i) =>
      (match f
       case CompanyName => Text(i.companyName)
       case Website => OfText(i.url)
       case Description => OfText(i.description)
       case Country => OfText(i.country)
       case Objective => Text(i.goal)
       case _ => Nothing)
    case Research(found) =>
      (match f
       case Products => OfTexts(NonBlank(found.products + found.services))
       case Customers => OfTexts(NonBlank(found.targetAudience))
       case Geography => OfText(FirstNonBlank(found.locations))
       case BusinessModel => OfText(found.market)
       case Positioning => OfText(found.positioning)
       case Description => OfText(found.activity)
       case _ => Nothing)
    case Confirm(c) =>
      (match f
       case CompanyName => OfText(Trimmed(c.companyName))
       case Description => OfText(Trimmed(c.description))
       case Objective => OfText(Trimmed(c.objective))
       case Geography => OfText(Trimmed(c.geography))
       case Products => OfTexts(NonBlank(c.products.GetOr([])))
       case Customers => OfTexts(NonBlank(c.customers.GetOr([])))
       case DeclaredTools => OfTexts(NonBlank(c.declaredTools.GetOr([])))
       case _ => Nothing)
    case Reach(_) => Nothing
  }

  function Origin(change: Change): FactProvenance {
    if change.Research? then FromResearch else FromCeo
  }

  /** Whether an update of the record writes the field: the conditions of its assignments, not of its stamps. */
  predicate Writes(before: Option<Record>, change: Change, f: Field) {
    match change
    case SubmitIntake(i) =>
      (match f
       case CompanyName => true
       case Website => Truthy(i.url)
       case Description => Truthy(i.description)
       case Country => Truthy(i.country)
       case Objective => HasText(Some(i.goal))
       case _ => false)
    case Research(found) =>
      before.Some? &&
      (match f
       case Products => NonBlank(found.products + found.services) != []
       case Customers => NonBlank(found.targetAudience) != []
       case Geography => NonBlank(found.locations) != []
       case BusinessModel => HasText(found.market)
       case Positioning => HasText(found.positioning)
       case Description => !HasText(before.value.description) && HasText(found.activity)
       case _ => false)
    case Confirm(c) =>
      before.Some? &&
      (match f
       case CompanyName => HasText(c.companyName)
       case Description => HasText(c.description)
       case Objective => HasText(c.objective)
       case Geography => HasText(c.geography)
       case Products => c.products.Some? && c.products.value != []
       case Customers => c.customers.Some? && c.customers.value != []
       case DeclaredTools => c.declaredTools.Some?
       case _ => false)
    case Reach(_) => false
  }

  /** A goal of blanks is not stored, but stamps the objective. */
  predicate StampsBlankGoal(change: Change, f: Field) {
    f == Objective && change.SubmitIntake? && change.intake.goal != "" && !HasText(Some(change.intake.goal))
  }

  ghost predicate WritesAt(organizationId: string, updates: seq<Update>, f: Field, i: nat)
    requires i < |updates|
  {
    Writes(After(organizationId, updates[..i]), updates[i].change, f)
  }

  ghost predicate LastWriter(organizationId: string, updates: seq<Update>, f: Field, i: nat)
    requires i < |updates|
  {
    && WritesAt(organizationId, updates, f, i)
    && forall j :: i < j < |updates| ==> !WritesAt(organizationId, updates, f, j)
  }

  ghost predicate NeverWritten(organizationId: string, updates: seq<Update>, f: Field) {
    forall i :: 0 <= i < |updates| ==> !WritesAt(organizationId, updates, f, i)
  }

  /** The field holds what its last writer brought, under that writer's origin; unwritten, it holds nothing. */
  ghost predicate HonestOrigin(organizationId: string, updates: seq<Update>, f: Field)
  {
    var r := After(organizationId, updates);
    && (forall i :: 0 <= i < |updates| && LastWriter(organizationId, updates, f, i) ==>
          && r.Some? && Get(r.value, f) == Offer(updates[i].change, f)
          && f in r.value.provenance && r.value.provenance[f] == Origin(updates[i].change))
    && (r.Some? && NeverWritten(organizationId, updates, f) ==>
          Get(r.value, f) == Nothing && (f in r.value.provenance ==> f == Objective && r.value.provenance[f] == FromCeo))
  }

  ghost predicate Keeps(before: Record, change: Change, after: Record, f: Field) {
    && Get(after, f) == Get(before, f)
    && (f in after.provenance <==> f in before.provenance || StampsBlankGoal(change, f))
    && (f in after.provenance ==>
          after.provenance[f] == if StampsBlankGoal(change, f) then FromCeo else before.provenance[f])
  }

  /** One update writes what it offers under its own origin, or keeps the field and, but for a blank goal, its origin. */
  ghost predicate WritesOrKeeps(organizationId: string, before: Option<Record>, change: Change, after: Record, f: Field) {
    if Writes(before, change, f) then
      Get(after, f) == Offer(change, f) && f in after.provenance && after.provenance[f] == Origin(change)
    else Keeps(before.GetOr(EmptyRecord(organizationId)), change, after, f)
  }

  lemma IntakeWritesOrKeeps(organizationId: string, r: Option<Record>, intake: Intake, now: Time, f: Field)
    ensures WritesOrKeeps(organizationId, r, SubmitIntake(intake), ProjectIntake(organizationId, intake, now, r), f)
  {
  }

  lemma ResearchWritesOrKeeps(organizationId: string, r: Record, found: Interpreted, now: Time, f: Field)
    ensures WritesOrKeeps(organizationId, Some(r), Research(found), ProjectResearch(r, found, now), f)
  {
  }

  lemma ConfirmationWritesOrKeeps(organizationId: string, r: Record, c: Corrections, now: Time, f: Field)
    ensures WritesOrKeeps(organizationId, Some(r), Confirm(c), ApplyCeoConfirmation(r, c, now), f)
  {
  }

  lemma {:induction false} UpdateWritesOrKeeps(organizationId: string, r: Option<Record>, u: Update, f: Field)
    requires r.Some? || u.change.SubmitIntake?
    ensures WritesOrKeeps(organizationId, r, u.change, Apply(organizationId, r, u).value, f)
  {
    match u.change
    case SubmitIntake(intake) => IntakeWritesOrKeeps(organizationId, r, intake, u.now, f);
    case Research(found) => ResearchWritesOrKeeps(organizationId, r.value, found, u.now, f);
    case Confirm(corrections) => ConfirmationWritesOrKeeps(organizationId, r.value, corrections, u.now, f);
    case Reach(_) =>
  }

  ghost predicate CeosObjective(r: Option<Record>) {
    r.Some? && Objective in r.value.provenance ==> r.value.provenance[Objective] == FromCeo
  }

  lemma UpdateKeepsCeosObjective(organizationId: string, r: Option<Record>, u: Update)
    requires CeosObjective(r)
    ensures CeosObjective(Apply(organizationId, r, u))
  {
  }

  /** The objective is only ever written by the CEO. */
  lemma {:induction false} ObjectiveIsCeos(organizationId: string, updates: seq<Update>)
    ensures CeosObjective(After(organizationId, updates))
    decreases |updates|
  {
    if updates != [] {
      ObjectiveIsCeos(organizationId, updates[..|updates| - 1]);
      UpdateKeepsCeosObjective(organizationId, After(organizationId, updates[..|updates| - 1]), updates[|updates| - 1]);
    }
  }

  lemma WritersOfPrefix(organizationId: string, updates: seq<Update>, f: Field)
    requires updates != []
    ensures var n := |updates| - 1;
      && (forall i :: 0 <= i < n ==> (WritesAt(organizationId, updates[..n], f, i) <==> WritesAt(organizationId, updates, f, i)))
      && (WritesAt(organizationId, updates, f, n) <==> Writes(After(organizationId, updates[..n]), updates[n].change, f))
  {
    var n := |updates| - 1;
    forall i | 0 <= i < n ensures WritesAt(organizationId, updates[..n], f, i) <==> WritesAt(organizationId, updates, f, i) {
      assert updates[..n][..i] == updates[..i];
    }
  }

  lemma {:induction false} WriterIsEffective(organizationId: string, updates: seq<Update>, f: Field, i: nat)
    requires i < |updates| && WritesAt(organizationId, updates, f, i)
    ensures After(organizationId, updates).Some?
  {
    assert updates[..i + 1][..i] == updates[..i];
    RecordStays(organizationId, updates, i + 1, |updates|);
    assert updates[..|updates|] == updates;
  }

  lemma WrittenNow(organizationId: string, updates: seq<Update>, f: Field)
    requires updates != [] && After(organizationId, updates).Some? && WritesAt(organizationId, updates, f, |updates| - 1)
    ensures HonestOrigin(organizationId, updates, f)
  {
    var n := |updates| - 1;
    var before := After(organizationId, updates[..n]);
    assert before.Some? || updates[n].change.SubmitIntake?;
    UpdateWritesOrKeeps(organizationId, before, updates[n], f);
    assert forall i :: 0 <= i < |updates| && LastWriter(organizationId, updates, f, i) ==> i == n;
  }

  lemma NoWriterBeforeTheRecord(organizationId: string, updates: seq<Update>, f: Field)
    requires After(organizationId, updates).None?
    ensures NeverWritten(organizationId, updates, f)
  {
    forall i | 0 <= i < |updates| ensures !WritesAt(organizationId, updates, f, i) {
      if WritesAt(organizationId, updates, f, i) {
        WriterIsEffective(organizationId, updates, f, i);
      }
    }
  }

  /** When the last update leaves the field alone, its last writer is that of the run before. */
  lemma KeptFromBefore(organizationId: string, updates: seq<Update>, f: Field)
    requires updates != [] && After(organizationId, updates).Some? && !WritesAt(organizationId, updates, f, |updates| - 1)
    requires HonestOrigin(organizationId, updates[..|updates| - 1], f)
    ensures HonestOrigin(organizationId, updates, f)
  {
    var n := |updates| - 1;
    var prefix := updates[..n];
    var before := After(organizationId, prefix);
    WritersOfPrefix(organizationId, updates, f);
    assert before.Some? || updates[n].change.SubmitIntake?;
    UpdateWritesOrKeeps(organizationId, before, updates[n], f);
    if before.None? {
      NoWriterBeforeTheRecord(organizationId, prefix, f);
    }
    SameLastWriter(organizationId, updates, f);
    if StampsBlankGoal(updates[n].change, f) {
      BlankGoalIsCeos(organizationId, updates, f);
    }
  }

  lemma SameLastWriter(organizationId: string, updates: seq<Update>, f: Field)
    requires updates != [] && !WritesAt(organizationId, updates, f, |updates| - 1)
    ensures var prefix := updates[..|updates| - 1];
      && (NeverWritten(organizationId, updates, f) ==> NeverWritten(organizationId, prefix, f))
      && forall i :: 0 <= i < |updates| && LastWriter(organizationId, updates, f, i) ==>
           i < |prefix| && LastWriter(organizationId, prefix, f, i)
  {
    WritersOfPrefix(organizationId, updates, f);
  }

  /** Only the CEO writes the objective, so the stamp of a blank goal says what was said before. */
  lemma BlankGoalIsCeos(organizationId: string, updates: seq<Update>, f: Field)
    requires updates != [] && StampsBlankGoal(updates[|updates| - 1].change, f)
    ensures forall i :: 0 <= i < |updates| && LastWriter(organizationId, updates, f, i) ==> Origin(updates[i].change) == FromCeo
  {
  }

  /** Over every run, each tracked field holds the value and names the origin of the update that last wrote it. */
  lemma {:induction false} ProvenanceIsHonest(organizationId: string, updates: seq<Update>, f: Field)
    ensures HonestOrigin(organizationId, updates, f)
    decreases |updates|
  {
    if updates != [] {
      var n := |updates| - 1;
      var after := After(organizationId, updates);
      ProvenanceIsHonest(organizationId, updates[..n], f);
      if after.Some? && WritesAt(organizationId, updates, f, n) {
        WrittenNow(organizationId, updates, f);
      } else if after.Some? {
        KeptFromBefore(organizationId, updates, f);
      } else {
        NoWriterBeforeTheRecord(organizationId, updates, f);
      }
    }
  }

  lemma {:induction false} SomeLastWriter(organizationId: string, updates: seq<Update>, f: Field, i: nat) returns (last: nat)
    requires i < |updates| && WritesAt(organizationId, updates, f, i)
    ensures last < |updates| && LastWriter(organizationId, updates, f, last)
    decreases |updates| - i
  {
    if LastWriter(organizationId, updates, f, i) {
      last := i;
    } else {
      var j :| i < j < |updates| && WritesAt(organizationId, updates, f, j);
      last := SomeLastWriter(organizationId, updates, f, j);
    }
  }

  /** Every populated field has a last writer, holds what that one brought, and names its origin. */
  lemma PopulatedNamesItsWriter(organizationId: string, updates: seq<Update>, f: Field)
    requires After(organizationId, updates).Some? && Get(After(organizationId, updates).value, f) != Nothing
    ensures var r := After(organizationId, updates).value;
      exists i :: 0 <= i < |updates| && LastWriter(organizationId, updates, f, i) && Get(r, f) == Offer(updates[i].change, f)
        && f in r.provenance && r.provenance[f] == Origin(updates[i].change)
  {
    ProvenanceIsHonest(organizationId, updates, f);
    var i :| 0 <= i < |updates| && WritesAt(organizationId, updates, f, i);
    var last := SomeLastWriter(organizationId, updates, f, i);
  }

  // ----- what research and milestones respect

  lemma {:induction false} NonBlankTexts(texts: seq<string>)
    ensures forall text :: text in NonBlank(texts) ==> HasText(Some(text))
    ensures NonBlank(texts) == [] <==> forall i :: 0 <= i < |texts| ==> !HasText(Some(texts[i]))
  {
    if texts != [] {
      NonBlankTexts(texts[1..]);
      assert forall i :: 0 < i < |texts| ==> texts[i] == texts[1..][i - 1];
    }
  }

  /** Research never replaces a description; neither it nor a milestone makes a complete record incomplete. */
  lemma StaysComplete(r: Record, found: Interpreted, milestone: Milestone, now: Time)
    ensures HasText(r.description) ==> ProjectResearch(r, found, now).description == r.description
    ensures Complete(Some(r)) ==> Complete(Some(ProjectResearch(r, found, now)))
    ensures Complete(Some(r)) ==> Complete(Some(WithMilestone(r, milestone, now)))
  {
    NonBlankTexts(found.locations);
    if FirstNonBlank(found.locations).Some? {
      assert NonBlank(found.locations)[0] in NonBlank(found.locations);
    }
  }

  lemma {:induction false} TrimIsTrimmed(text: string)
    ensures Trim(Trim(text)) == Trim(text)
    decreases |text|
  {
    if text != "" {
      if IsSpace(text[0]) {
        TrimIsTrimmed(text[1..]);
      } else if IsSpace(text[|text| - 1]) {
        TrimIsTrimmed(text[..|text| - 1]);
      }
    }
  }

  /** A confirmation can: exactly when it replaces the products by blanks while there is no description. */
  lemma ConfirmationStaysCompleteIff(r: Record, c: Corrections, now: Time)
    requires Complete(Some(r))
    ensures Complete(Some(ApplyCeoConfirmation(r, c, now))) <==>
            !(!HasText(r.description) && !HasText(c.description) && Given(c.products) &&
              forall i :: 0 <= i < |c.products.value| ==> !HasText(Some(c.products.value[i])))
  {
    if c.companyName.Some? { TrimIsTrimmed(c.companyName.value); }
    if c.description.Some? { TrimIsTrimmed(c.description.value); }
    if c.objective.Some? { TrimIsTrimmed(c.objective.value); }
    if c.geography.Some? { TrimIsTrimmed(c.geography.value); }
    if c.products.Some? { NonBlankTexts(c.products.value); }
  }

  // ----- the fields without a provenance

  /** Over every run the record is that of its organization. */
  lemma {:induction false} RecordIsTheOrganizations(organizationId: string, updates: seq<Update>)
    requires After(organizationId, updates).Some?
    ensures After(organizationId, updates).value.organizationId == organizationId
    decreases |updates|
  {
    if After(organizationId, updates[..|updates| - 1]).Some? {
      RecordIsTheOrganizations(organizationId, updates[..|updates| - 1]);
    }
  }

  /** An intake makes the record its organization's, whatever record there was. */
  lemma IntakeClaimsTheRecord(organizationId: string, intake: Intake, now: Time, existing: Option<Record>)
    ensures ProjectIntake(organizationId, intake, now, existing).organizationId == organizationId
  {
  }

  ghost predicate GivesSize(u: Update) {
    u.change.SubmitIntake? && u.change.intake.companySize.Some? && u.change.intake.companySize.value != ""
  }

  ghost predicate NoSizeFrom(updates: seq<Update>, from: nat) {
    forall i :: from <= i < |updates| ==> !GivesSize(updates[i])
  }

  ghost predicate LastSize(updates: seq<Update>, i: nat) {
    i < |updates| && GivesSize(updates[i]) && NoSizeFrom(updates, i + 1)
  }

  lemma SizeAfterUpdate(organizationId: string, record: Option<Record>, u: Update)
    requires Apply(organizationId, record, u).Some?
    ensures Apply(organizationId, record, u).value.companySize ==
            if GivesSize(u) then u.change.intake.companySize else if record.Some? then record.value.companySize else None
    ensures record.None? ==> u.change.SubmitIntake?
  {
  }

  /** An update of no record that makes none gives no size. */
  lemma NoRecordNoSize(organizationId: string, record: Option<Record>, u: Update)
    requires Apply(organizationId, record, u).None?
    ensures record.None? && !GivesSize(u)
  {
  }

  /** Over every run the company's size is that of the last intake that gave one. */
  lemma {:induction false} SizeIsLastGiven(organizationId: string, updates: seq<Update>)
    ensures After(organizationId, updates).None? ==> NoSizeFrom(updates, 0)
    ensures After(organizationId, updates).Some? ==>
              if NoSizeFrom(updates, 0) then After(organizationId, updates).value.companySize.None?
              else exists i :: 0 <= i < |updates| && LastSize(updates, i)
                     && After(organizationId, updates).value.companySize == updates[i].change.intake.companySize
    decreases |updates|
  {
    if updates != [] {
      var n := |updates| - 1;
      var before := After(organizationId, updates[..n]);
      SizeIsLastGiven(organizationId, updates[..n]);
      if After(organizationId, updates).None? {
        NoRecordNoSize(organizationId, before, updates[n]);
      } else {
        SizeAfterUpdate(organizationId, before, updates[n]);
        if GivesSize(updates[n]) {
          assert LastSize(updates, n);
        } else if !NoSizeFrom(updates, 0) {
          var i :| 0 <= i < n && LastSize(updates[..n], i) && before.value.companySize == updates[i].change.intake.companySize;
          assert LastSize(updates, i);
        }
      }
    }
  }

  function MilestoneTime(r: Record, milestone: Milestone): Option<Time> {
    match milestone
    case ResearchCompleted => r.researchCompletedAt
    case BlockingDiscoveryCompleted => r.blockingDiscoveryCompletedAt
    case DepartmentProvisioned => r.departmentProvisionedAt
  }

  /** The update reaches the milestone of a company that has a record; research reaches its own. */
  ghost predicate Marks(organizationId: string, updates: seq<Update>, milestone: Milestone, i: nat)
    requires i < |updates|
  {
    && After(organizationId, updates[..i]).Some?
    && (updates[i].change == Reach(milestone) || (milestone == ResearchCompleted && updates[i].change.Research?))
  }

  ghost predicate LastMark(organizationId: string, updates: seq<Update>, milestone: Milestone, i: nat) {
    && i < |updates| && Marks(organizationId, updates, milestone, i)
    && forall j :: i < j < |updates| ==> !Marks(organizationId, updates, milestone, j)
  }

  ghost predicate NeverMarked(organizationId: string, updates: seq<Update>, milestone: Milestone) {
    forall i :: 0 <= i < |updates| ==> !Marks(organizationId, updates, milestone, i)
  }

  lemma MilestoneAfterUpdate(organizationId: string, record: Option<Record>, u: Update, milestone: Milestone)
    requires Apply(organizationId, record, u).Some?
    ensures MilestoneTime(Apply(organizationId, record, u).value, milestone) ==
            if record.None? then None
            else if u.change == Reach(milestone) || (milestone == ResearchCompleted && u.change.Research?) then Some(u.now)
            else MilestoneTime(record.value, milestone)
  {
  }

  lemma {:induction false} NoRecordNoMark(organizationId: string, updates: seq<Update>, milestone: Milestone)
    requires After(organizationId, updates).None?
    ensures NeverMarked(organizationId, updates, milestone)
  {
    assert updates[..|updates|] == updates;
    forall i | 0 <= i < |updates| ensures !Marks(organizationId, updates, milestone, i) {
      if Marks(organizationId, updates, milestone, i) {
        RecordStays(organizationId, updates, i, |updates|);
      }
    }
  }

  /** Over every run each milestone carries the time of the last update that reached it, and none without one. */
  lemma {:induction false} MilestoneIsLastReached(organizationId: string, updates: seq<Update>, milestone: Milestone)
    requires After(organizationId, updates).Some?
    ensures var time := MilestoneTime(After(organizationId, updates).value, milestone);
      if NeverMarked(organizationId, updates, milestone) then time.None?
      else exists i :: 0 <= i < |updates| && LastMark(organizationId, updates, milestone, i) && time == Some(updates[i].now)
    decreases |updates|
  {
    var n := |updates| - 1;
    var before := After(organizationId, updates[..n]);
    MilestoneAfterUpdate(organizationId, before, updates[n], milestone);
    if Marks(organizationId, updates, milestone, n) {
      assert LastMark(organizationId, updates, milestone, n);
    } else {
      NeverMarkedBefore(organizationId, updates, milestone);
      if before.None? {
        NoRecordNoMark(organizationId, updates[..n], milestone);
      } else {
        MilestoneIsLastReached(organizationId, updates[..n], milestone);
        if !NeverMarked(organizationId, updates[..n], milestone) {
          var i :| 0 <= i < n && LastMark(organizationId, updates[..n], milestone, i)
                   && MilestoneTime(before.value, milestone) == Some(updates[..n][i].now);
          MarksStay(organizationId, updates, milestone, i);
        }
      }
    }
  }

  lemma MarkOfPrefix(organizationId: string, updates: seq<Update>, milestone: Milestone, i: nat)
    requires i < |updates| - 1
    ensures Marks(organizationId, updates[..|updates| - 1], milestone, i) <==> Marks(organizationId, updates, milestone, i)
  {
    assert updates[..|updates| - 1][..i] == updates[..i];
  }

  lemma MarksStay(organizationId: string, updates: seq<Update>, milestone: Milestone, i: nat)
    requires i < |updates| - 1 && !Marks(organizationId, updates, milestone, |updates| - 1)
    requires LastMark(organizationId, updates[..|updates| - 1], milestone, i)
    ensures LastMark(organizationId, updates, milestone, i)
  {
    forall j | i <= j < |updates| - 1
      ensures Marks(organizationId, updates[..|updates| - 1], milestone, j) <==> Marks(organizationId, updates, milestone, j)
    {
      MarkOfPrefix(organizationId, updates, milestone, j);
    }
  }

  lemma NeverMarkedBefore(organizationId: string, updates: seq<Update>, milestone: Milestone)
    requires updates != [] && !Marks(organizationId, updates, milestone, |updates| - 1)
    ensures NeverMarked(organizationId, updates[..|updates| - 1], milestone) <==> NeverMarked(organizationId, updates, milestone)
  {
    var n := |updates| - 1;
    forall j | 0 <= j < n
      ensures Marks(organizationId, updates[..n], milestone, j) <==> Marks(organizationId, updates, milestone, j)
    {
      MarkOfPrefix(organizationId, updates, milestone, j);
    }
    if NeverMarked(organizationId, updates[..n], milestone) {
      assert forall j :: 0 <= j < |updates| ==> j == n || !Marks(organizationId, updates, milestone, j);
    }
  }

  /** The first of the locations that says something is the geography found; there is none exactly when none does. */
  lemma {:induction false} FirstLocationIsTaken(locations: seq<string>)
    ensures FirstNonBlank(locations).None? <==> forall i :: 0 <= i < |locations| ==> !Says(locations[i])
    ensures forall i :: 0 <= i < |locations| && Says(locations[i]) && (forall j :: 0 <= j < i ==> !Says(locations[j])) ==>
              FirstNonBlank(locations) == Some(locations[i])
  {
    if locations != [] {
      HasTextIffTold(Some(locations[0]));
      FirstLocationIsTaken(locations[1..]);
      assert forall i :: 0 < i < |locations| ==> locations[i] == locations[1..][i - 1];
    }
  }

  ghost predicate SomeSays(texts: seq<string>) {
    exists i :: 0 <= i < |texts| && Says(texts[i])
  }

  lemma SomeSaysIff(texts: seq<string>)
    ensures SomeSays(texts) <==> NonBlank(texts) != []
  {
    NonBlankTexts(texts);
    forall i | 0 <= i < |texts| ensures HasText(Some(texts[i])) <==> Says(texts[i]) {
      HasTextIffTold(Some(texts[i]));
    }
  }

  /** Of three different names, those with a true flag, each once. */
  lemma ThreeNames(a: string, b: string, c: string, p: bool, q: bool, r: bool, names: seq<string>)
    requires a != b && b != c && a != c
    requires names == (if p then [a] else []) + (if q then [b] else []) + (if r then [c] else [])
    ensures (a in names <==> p) && (b in names <==> q) && (c in names <==> r)
    ensures forall name :: name in names ==> name in [a, b, c]
    ensures forall i, j :: 0 <= i < j < |names| ==> names[i] != names[j]
  {
  }

  /** What research leaves uncertain: each of three things exactly when nothing found tells it, each once. */
  lemma {:induction false} UncertainIff(r: Record, found: Interpreted, now: Time)
    ensures var u := ProjectResearch(r, found, now).uncertainties;
      && ("products" in u <==> !SomeSays(found.products) && !SomeSays(found.services))
      && ("customers" in u <==> !SomeSays(found.targetAudience))
      && ("geography" in u <==> !SomeSays(found.locations) && !Told(r.country))
      && (forall name :: name in u ==> name in ["products", "customers", "geography"])
      && forall i, j :: 0 <= i < j < |u| ==> u[i] != u[j]
  {
    NonBlankFilters(found.products, found.services);
    SomeSaysIff(found.products);
    SomeSaysIff(found.services);
    SomeSaysIff(found.targetAudience);
    SomeSaysIff(found.locations);
    HasTextIffTold(r.country);
    assert "products"[0] == 'p' && "customers"[0] == 'c' && "geography"[0] == 'g';
    ThreeNames("products", "customers", "geography", !SomeSays(found.products) && !SomeSays(found.services),
               !SomeSays(found.targetAudience), !SomeSays(found.locations) && !Told(r.country),
               ProjectResearch(r, found, now).uncertainties);
  }

  /** Only research says what is uncertain. */
  lemma OthersKeepUncertainties(organizationId: string, record: Option<Record>, u: Update)
    requires Apply(organizationId, record, u).Some? && !u.change.Research?
    ensures Apply(organizationId, record, u).value.uncertainties == if record.Some? then record.value.uncertainties else []
  {
  }

  // ----- the store

  class InMemoryCompanyDnaStore {
    var rows: map<string, Record>

    constructor ()
      ensures rows == map[]
    {
      rows := map[];
    }

    method Fetch(organizationId: string) returns (record: Option<Record>)
      ensures record == if organizationId in rows then Some(rows[organizationId]) else None
    {
      record := if organizationId in rows then Some(rows[organizationId]) else None;
    }

    method Upsert(record: Record)
      modifies this
      ensures rows == old(rows)[record.organizationId := record]
    {
      rows := rows[record.organizationId := record];
    }

    /** Stamps a milestone on an existing row and leaves the facts, and every other row, as they are. */
    method MarkMilestone(organizationId: string, milestone: Milestone, now: Time) returns (updated: Option<Record>)
      requires organizationId in rows ==> rows[organizationId].organizationId == organizationId
      modifies this
      ensures organizationId !in old(rows) ==> updated.None? && rows == old(rows)
      ensures organizationId in old(rows) ==> updated == Some(WithMilestone(old(rows)[organizationId], milestone, now))
                                              && rows == old(rows)[organizationId := updated.value]
      ensures updated.Some? ==> ConfirmationCurrent(updated) == ConfirmationCurrent(Some(old(rows)[organizationId]))
    {
      var record := Fetch(organizationId);
      if record.None? {
        return None;
      }
      updated := match milestone
        case ResearchCompleted => Some(record.value.(researchCompletedAt := Some(now)))
        case BlockingDiscoveryCompleted => Some(record.value.(blockingDiscoveryCompletedAt := Some(now)))
        case DepartmentProvisioned => Some(record.value.(departmentProvisionedAt := Some(now)));
      Upsert(updated.value);
    }
  }
}
