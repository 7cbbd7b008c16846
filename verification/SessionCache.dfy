/**
  The session cache of an MCP connector: concurrent requests of one key share one
  promise, a failed promise is deleted by key inside its rejection handler.

  Promise `p` is the `p`-th session opened.  Opening it takes three calls to the
  provider, each answered in an action of its own; the handler that deletes a
  failed promise runs in a later action than the failure.
 */
module SessionCache {
  import opened Wrappers

  /** `Rejected` is the state between the failure of `openSession` and the run of its handler. */
  datatype Stage = Initializing | Notifying | Listing | Rejected | Failed | Open

  datatype Session = Session(key: string, stage: Stage) {
    predicate InFlight() {
      stage.Initializing? || stage.Notifying? || stage.Listing?
    }

    /** The promise handed out is pending or fulfilled. */
    predicate Alive() {
      !stage.Failed?
    }
  }

  datatype Answer = Throws | Reply(hasResult: bool, hasError: bool, tools: nat)

  function SessionKey(organizationId: string, userId: Option<string>): string {
    organizationId + ":" + userId.GetOr("system")
  }

  function UserPart(userId: Option<string>): string {
    userId.GetOr("system")
  }

  /** One organization's id continues the other's by a colon, and what follows is the start of the other's user part. */
  ghost predicate Collide(organizationId: string, user: string, otherOrganization: string, otherUser: string) {
    exists middle :: otherOrganization == organizationId + ":" + middle && user == middle + ":" + otherUser
  }

  lemma LongerOrganization(organizationId: string, user: string, otherOrganization: string, otherUser: string)
    requires organizationId + ":" + user == otherOrganization + ":" + otherUser && |organizationId| < |otherOrganization|
    ensures Collide(organizationId, user, otherOrganization, otherUser)
  {
    var key, n := organizationId + ":" + user, |organizationId|;
    assert otherOrganization == key[..|otherOrganization|] && organizationId == key[..n] && key[n] == ':';
    var middle := otherOrganization[n + 1..];
    assert otherOrganization == organizationId + ":" + middle;
    assert user == key[n + 1..] && otherUser == key[|otherOrganization| + 1..];
    assert user == middle + ":" + otherUser;
  }

  /** Two requests share a key when they agree on organization and user, and otherwise exactly in the colliding case. */
  lemma SameKeyIff(organizationId: string, userId: Option<string>, otherOrganization: string, otherUserId: Option<string>)
    ensures var user, other := UserPart(userId), UserPart(otherUserId);
      SessionKey(organizationId, userId) == SessionKey(otherOrganization, otherUserId) <==>
      || (organizationId == otherOrganization && user == other)
      || Collide(organizationId, user, otherOrganization, other)
      || Collide(otherOrganization, other, organizationId, user)
  {
    var user, other := UserPart(userId), UserPart(otherUserId);
    var key, otherKey := SessionKey(organizationId, userId), SessionKey(otherOrganization, otherUserId);
    if key == otherKey {
      if |organizationId| < |otherOrganization| {
        LongerOrganization(organizationId, user, otherOrganization, other);
      } else if |otherOrganization| < |organizationId| {
        LongerOrganization(otherOrganization, other, organizationId, user);
      } else {
        assert organizationId == key[..|organizationId|] && user == key[|organizationId| + 1..];
        assert otherOrganization == key[..|organizationId|] && other == key[|organizationId| + 1..];
      }
    }
    if Collide(organizationId, user, otherOrganization, other) {
      var middle :| otherOrganization == organizationId + ":" + middle && user == middle + ":" + other;
      assert key == otherKey;
    }
    if Collide(otherOrganization, other, organizationId, user) {
      var middle :| organizationId == otherOrganization + ":" + middle && other == middle + ":" + user;
      assert key == otherKey;
    }
  }

  /** `returned` lists, request by request, the key asked for and the promise handed out. */
  datatype State = State(sessionPromises: map<string, nat>, sessions: seq<Session>, returned: seq<(string, nat)>)

  datatype Action = Request(key: string) | Reply(p: nat, answer: Answer) | HandleRejection(p: nat)

  const INITIAL: State := State(map[], [], [])

  predicate Enabled(s: State, a: Action) {
    match a
    case Request(_) => true
    case Reply(p, _) => p < |s.sessions| && s.sessions[p].InFlight()
    case HandleRejection(p) => p < |s.sessions| && s.sessions[p].stage.Rejected?
  }

  /** What one answer of the provider does to a session that is being opened. */
  function Answered(stage: Stage, answer: Answer): Stage {
    match answer
    case Throws => Rejected
    case Reply(hasResult, hasError, tools) =>
      match stage
      case Initializing => if !hasResult || hasError then Rejected else Notifying
      case Notifying => Listing
      case _ => if hasError || tools == 0 then Rejected else Open
  }

  function Apply(s: State, a: Action): State
    requires Enabled(s, a)
  {
    match a
    case Request(key) =>
      if key in s.sessionPromises then s.(returned := s.returned + [(key, s.sessionPromises[key])])
      else
        var p := |s.sessions|;
        State(s.sessionPromises[key := p], s.sessions + [Session(key, Initializing)], s.returned + [(key, p)])
    case Reply(p, answer) =>
      s.(sessions := s.sessions[p := s.sessions[p].(stage := Answered(s.sessions[p].stage, answer))])
    case HandleRejection(p) =>
      s.(sessionPromises := s.sessionPromises - {s.sessions[p].key},
         sessions := s.sessions[p := s.sessions[p].(stage := Failed)])
  }

  function Next(s: State, a: Action): State {
    if Enabled(s, a) then Apply(s, a) else s
  }

  function Run(s: State, actions: seq<Action>): State
    decreases |actions|
  {
    if actions == [] then s else Run(Next(s, actions[0]), actions[1..])
  }

  // ----- what every step keeps

  ghost predicate Inv(s: State) {
    && (forall key :: key in s.sessionPromises ==>
          s.sessionPromises[key] < |s.sessions| && s.sessions[s.sessionPromises[key]].key == key)
    && (forall key :: key in s.sessionPromises ==> s.sessions[s.sessionPromises[key]].Alive())
    && (forall p :: 0 <= p < |s.sessions| && s.sessions[p].Alive() ==>
          s.sessions[p].key in s.sessionPromises && s.sessionPromises[s.sessions[p].key] == p)
    && (forall i :: 0 <= i < |s.returned| ==>
          s.returned[i].1 < |s.sessions| && s.sessions[s.returned[i].1].key == s.returned[i].0)
  }

  lemma StepKeepsInv(s: State, a: Action)
    requires Inv(s)
    ensures Inv(Next(s, a))
  {
  }

  lemma {:induction false} RunKeepsInv(s: State, actions: seq<Action>)
    requires Inv(s)
    ensures Inv(Run(s, actions))
    decreases |actions|
  {
    if actions != [] {
      StepKeepsInv(s, actions[0]);
      RunKeepsInv(Next(s, actions[0]), actions[1..]);
    }
  }

  // ----- every interleaving

  /** At most one session of a key is being opened or open, and the cache names exactly the ones that have not failed. */
  lemma SingleFlight(actions: seq<Action>)
    ensures var s := Run(INITIAL, actions);
      && (forall p, q :: (0 <= p < |s.sessions| && 0 <= q < |s.sessions| && s.sessions[p].key == s.sessions[q].key &&
                          s.sessions[p].Alive() && s.sessions[q].Alive()) ==> p == q)
      && (forall key, p :: key in s.sessionPromises && s.sessionPromises[key] == p <==>
            0 <= p < |s.sessions| && s.sessions[p].key == key && s.sessions[p].Alive())
      && (forall i :: 0 <= i < |s.returned| ==>
            s.returned[i].1 < |s.sessions| && s.sessions[s.returned[i].1].key == s.returned[i].0)
  {
    RunKeepsInv(INITIAL, actions);
  }

  /** The handler deletes by key, yet it only ever removes its own promise. */
  lemma HandlerRemovesItself(actions: seq<Action>, p: nat)
    requires Enabled(Run(INITIAL, actions), HandleRejection(p))
    ensures var s := Run(INITIAL, actions);
      var t := Next(s, HandleRejection(p));
      && s.sessions[p].key in s.sessionPromises && s.sessionPromises[s.sessions[p].key] == p
      && (forall key :: key in t.sessionPromises <==> key in s.sessionPromises && s.sessionPromises[key] != p)
      && (forall key :: key in t.sessionPromises ==> t.sessionPromises[key] == s.sessionPromises[key])
  {
    RunKeepsInv(INITIAL, actions);
  }

  /** A request opens a session exactly when all sessions of its key have failed; otherwise it shares the live one. */
  lemma RequestOpensIffAllFailed(actions: seq<Action>, key: string)
    ensures var s := Run(INITIAL, actions);
      var t := Next(s, Request(key));
      var allFailed := forall p :: 0 <= p < |s.sessions| && s.sessions[p].key == key ==> s.sessions[p].stage.Failed?;
      && (allFailed <==> |t.sessions| == |s.sessions| + 1)
      && (allFailed ==> t.sessions == s.sessions + [Session(key, Initializing)])
      && (allFailed ==> t.returned == s.returned + [(key, |s.sessions|)])
      && (!allFailed ==> t.sessions == s.sessions && key in s.sessionPromises)
      && (!allFailed ==> t.returned == s.returned + [(key, s.sessionPromises[key])])
  {
    RunKeepsInv(INITIAL, actions);
    var s := Run(INITIAL, actions);
    if key in s.sessionPromises {
      assert !s.sessions[s.sessionPromises[key]].stage.Failed?;
    }
  }

  // ----- how many sessions are ever opened

  function Opened(sessions: seq<Session>, key: string): nat {
    if sessions == [] then 0 else Opened(sessions[1..], key) + if sessions[0].key == key then 1 else 0
  }

  function FailedSessions(sessions: seq<Session>, key: string): nat {
    if sessions == [] then 0
    else FailedSessions(sessions[1..], key) + if sessions[0].key == key && sessions[0].stage.Failed? then 1 else 0
  }

  /** Sessions opened for a key: one for each that failed, and one more while the cache holds the key. */
  lemma OneOpeningPerFailure(actions: seq<Action>, key: string)
    ensures var s := Run(INITIAL, actions);
      Opened(s.sessions, key) == FailedSessions(s.sessions, key) + if key in s.sessionPromises then 1 else 0
  {
    RunKeepsInv(INITIAL, actions);
    var s := Run(INITIAL, actions);
    if key in s.sessionPromises {
      AllButOneFailed(s.sessions, key, s.sessionPromises[key]);
    } else {
      AllFailed(s.sessions, key);
    }
  }

  lemma {:induction false} AllFailed(sessions: seq<Session>, key: string)
    requires forall p :: 0 <= p < |sessions| && sessions[p].key == key ==> sessions[p].stage.Failed?
    ensures Opened(sessions, key) == FailedSessions(sessions, key)
  {
    if sessions != [] {
      assert forall p :: 0 <= p < |sessions[1..]| ==> sessions[1..][p] == sessions[p + 1];
      AllFailed(sessions[1..], key);
    }
  }

  lemma {:induction false} AllButOneFailed(sessions: seq<Session>, key: string, live: nat)
    requires live < |sessions| && sessions[live].key == key && sessions[live].Alive()
    requires forall p :: 0 <= p < |sessions| && sessions[p].key == key && p != live ==> sessions[p].stage.Failed?
    ensures Opened(sessions, key) == FailedSessions(sessions, key) + 1
    decreases live
  {
    assert forall p :: 0 <= p < |sessions[1..]| ==> sessions[1..][p] == sessions[p + 1];
    if live == 0 {
      AllFailed(sessions[1..], key);
    } else {
      AllButOneFailed(sessions[1..], key, live - 1);
    }
  }

  // ----- what the provider answered

  /** The answer that an action brings to the promise. */
  function AnsweredBy(s: State, a: Action, p: nat): seq<Answer> {
    if Enabled(s, a) && a.Reply? && a.p == p then [a.answer] else []
  }

  /** All that was answered to the promise, in order. */
  function Answers(s: State, actions: seq<Action>, p: nat): seq<Answer>
    decreases |actions|
  {
    if actions == [] then [] else AnsweredBy(s, actions[0], p) + Answers(Next(s, actions[0]), actions[1..], p)
  }

  predicate Initialized(answers: seq<Answer>) {
    answers != [] && answers[0].Reply? && answers[0].hasResult && !answers[0].hasError
  }

  predicate Notified(answers: seq<Answer>) {
    Initialized(answers) && |answers| > 1 && answers[1].Reply?
  }

  predicate Listed(answers: seq<Answer>) {
    Notified(answers) && |answers| > 2 && answers[2].Reply? && !answers[2].hasError && answers[2].tools > 0
  }

  /** Where the opening stands after these answers: the first bad one ends it, and no call is made after that. */
  ghost predicate StandsAt(stage: Stage, answers: seq<Answer>) {
    && (stage == Initializing <==> answers == [])
    && (stage == Notifying <==> Initialized(answers) && |answers| == 1)
    && (stage == Listing <==> Notified(answers) && |answers| == 2)
    && (stage == Open <==> Listed(answers))
    && (stage == Rejected || stage == Failed <==>
          || (|answers| == 1 && !Initialized(answers))
          || (|answers| == 2 && !Notified(answers))
          || (|answers| == 3 && !Listed(answers)))
    && (|answers| == 2 ==> Initialized(answers))
    && (|answers| == 3 ==> Notified(answers))
  }

  ghost predicate Stands(s: State, p: nat, answers: seq<Answer>) {
    if p < |s.sessions| then StandsAt(s.sessions[p].stage, answers) else answers == []
  }

  lemma OneMoreAnswer(stage: Stage, answers: seq<Answer>, answer: Answer)
    requires StandsAt(stage, answers) && (stage.Initializing? || stage.Notifying? || stage.Listing?)
    ensures StandsAt(Answered(stage, answer), answers + [answer])
  {
  }

  lemma StepStands(s: State, a: Action, p: nat, answers: seq<Answer>)
    requires Stands(s, p, answers)
    ensures Stands(Next(s, a), p, answers + AnsweredBy(s, a, p))
  {
    assert answers + [] == answers;
    if Enabled(s, a) && a.Reply? && a.p == p {
      OneMoreAnswer(s.sessions[p].stage, answers, a.answer);
    }
  }

  lemma {:induction false} RunStands(s: State, actions: seq<Action>, p: nat, answers: seq<Answer>)
    requires Stands(s, p, answers)
    ensures Stands(Run(s, actions), p, answers + Answers(s, actions, p))
    decreases |actions|
  {
    if actions == [] {
      assert answers + [] == answers;
    } else {
      var first := AnsweredBy(s, actions[0], p);
      StepStands(s, actions[0], p, answers);
      RunStands(Next(s, actions[0]), actions[1..], p, answers + first);
      assert answers + first + Answers(Next(s, actions[0]), actions[1..], p) == answers + Answers(s, actions, p);
    }
  }

  /** In every run a session is open exactly when all three calls were answered well, and fails at the first that was not. */
  lemma {:induction false} OpensIffAnsweredWell(actions: seq<Action>, p: nat)
    requires p < |Run(INITIAL, actions).sessions|
    ensures StandsAt(Run(INITIAL, actions).sessions[p].stage, Answers(INITIAL, actions, p))
  {
    RunStands(INITIAL, actions, p, []);
    assert [] + Answers(INITIAL, actions, p) == Answers(INITIAL, actions, p);
  }

  // ----- the code, one method for each stretch between awaits

  class McpConnectorRuntime {
    var sessionPromises: map<string, nat>
    var sessions: seq<Session>
    var returned: seq<(string, nat)>

    function View(): State
      reads this
    {
      State(sessionPromises, sessions, returned)
    }

    constructor ()
      ensures View() == INITIAL && Inv(View())
    {
      sessionPromises, sessions, returned := map[], [], [];
    }

    method GetSession(organizationId: string, userId: Option<string>) returns (promise: nat)
      requires Inv(View())
      modifies this
      ensures View() == Apply(old(View()), Request(SessionKey(organizationId, userId))) && Inv(View())
      ensures promise < |sessions| && sessions[promise].Alive()
      ensures sessions[promise].key == SessionKey(organizationId, userId)
    {
      var sessionKey := SessionKey(organizationId, userId);
      StepKeepsInv(View(), Request(sessionKey));
      if sessionKey in sessionPromises {
        promise := sessionPromises[sessionKey];
      } else {
        promise := |sessions|;
        sessions := sessions + [Session(sessionKey, Initializing)];
        sessionPromises := sessionPromises[sessionKey := promise];
      }
      returned := returned + [(sessionKey, promise)];
    }

    /** The provider answers one of the calls of `openSession`. */
    method AnswerCall(p: nat, answer: Answer)
      requires Inv(View()) && Enabled(View(), Action.Reply(p, answer))
      modifies this
      ensures View() == Apply(old(View()), Action.Reply(p, answer)) && Inv(View())
    {
      StepKeepsInv(View(), Action.Reply(p, answer));
      sessions := sessions[p := sessions[p].(stage := Answered(sessions[p].stage, answer))];
    }

    method Catch(p: nat)
      requires Inv(View()) && Enabled(View(), HandleRejection(p))
      modifies this
      ensures View() == Apply(old(View()), HandleRejection(p)) && Inv(View())
      ensures sessionPromises == map key | key in old(sessionPromises) && old(sessionPromises)[key] != p
                                         :: old(sessionPromises)[key]
    {
      StepKeepsInv(View(), HandleRejection(p));
      sessionPromises := sessionPromises - {sessions[p].key};
      sessions := sessions[p := sessions[p].(stage := Failed)];
    }
  }
}
