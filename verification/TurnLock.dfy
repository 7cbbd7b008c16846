/**
  The turn lock of a session: a chain of promises that serializes every stateful
  turn, with a cleanup that deletes the chain when the last turn leaves.

  Call `k` is the `k`-th arrival.  Its `own` promise is resolved exactly when its
  action is over, and its `tail` is `previous.then(() => own)`.  Everything between
  two awaits is one action; any list of actions is an interleaving, and an action
  that is not enabled leaves the state as it is.
 */
module TurnLock {
  import opened Wrappers

  datatype Phase = Waiting | Running | Done

  /** `previous` is the call whose tail is awaited; None is `Promise.resolve()`. */
  datatype Call = Call(previous: Option<nat>, phase: Phase, tailResolved: bool)

  /** `turnMutex` names the call whose tail it holds; `entered` is the order in which actions began. */
  datatype State = State(turnMutex: Option<nat>, calls: seq<Call>, entered: seq<nat>)

  datatype Action = Arrive | ResolveTail(k: nat) | Enter(k: nat) | Finish(k: nat)

  const INITIAL: State := State(None, [], [])

  predicate Resolved(s: State, promise: Option<nat>) {
    promise.Some? ==> promise.value < |s.calls| && s.calls[promise.value].tailResolved
  }

  predicate Enabled(s: State, a: Action) {
    match a
    case Arrive => true
    case ResolveTail(k) =>
      k < |s.calls| && !s.calls[k].tailResolved && Resolved(s, s.calls[k].previous) && s.calls[k].phase == Done
    case Enter(k) => k < |s.calls| && s.calls[k].phase == Waiting && Resolved(s, s.calls[k].previous)
    case Finish(k) => k < |s.calls| && s.calls[k].phase == Running
  }

  function Apply(s: State, a: Action): State
    requires Enabled(s, a)
  {
    match a
    case Arrive => s.(turnMutex := Some(|s.calls|), calls := s.calls + [Call(s.turnMutex, Waiting, false)])
    case ResolveTail(k) => s.(calls := s.calls[k := s.calls[k].(tailResolved := true)])
    case Enter(k) => s.(calls := s.calls[k := s.calls[k].(phase := Running)], entered := s.entered + [k])
    case Finish(k) => s.(calls := s.calls[k := s.calls[k].(phase := Done)],
                         turnMutex := if s.turnMutex == Some(k) then None else s.turnMutex)
  }

  function Next(s: State, a: Action): State {
    if Enabled(s, a) then Apply(s, a) else s
  }

  function Run(s: State, actions: seq<Action>): State
    decreases |actions|
  {
    if actions == [] then s else Run(Next(s, actions[0]), actions[1..])
  }

  // ----- what every step keeps

  ghost predicate DoneBefore(s: State, k: nat)
    requires k <= |s.calls|
  {
    forall j :: 0 <= j < k ==> s.calls[j].phase == Done
  }

  /** One call is linked to its predecessor, or to nothing when all its predecessors had left. */
  ghost predicate Linked(s: State, k: nat)
    requires k < |s.calls|
  {
    && (s.calls[k].previous.None? ==> DoneBefore(s, k))
    && (s.calls[k].previous.Some? ==> s.calls[k].previous.value + 1 == k)
    && (s.calls[k].phase != Waiting ==> DoneBefore(s, k))
    && (s.calls[k].tailResolved ==> DoneBefore(s, k + 1))
  }

  ghost predicate Inv(s: State) {
    && (forall k :: 0 <= k < |s.calls| ==> Linked(s, k))
    && (s.turnMutex.None? ==> DoneBefore(s, |s.calls|))
    && (s.turnMutex.Some? ==> s.turnMutex.value + 1 == |s.calls| && s.calls[s.turnMutex.value].phase != Done)
    && |s.entered| <= |s.calls|
    && (forall i :: 0 <= i < |s.entered| ==> s.entered[i] == i)
    && (forall k :: 0 <= k < |s.calls| ==> (k < |s.entered| <==> s.calls[k].phase != Waiting))
  }

  lemma StepKeepsInv(s: State, a: Action)
    requires Inv(s)
    ensures Inv(Next(s, a))
  {
    if Enabled(s, a) {
      var t := Next(s, a);
      if a.Enter? {
        assert Linked(s, a.k);
        assert a.k > 0 ==> Linked(s, a.k - 1);
        assert a.k > 0 ==> s.calls[a.k - 1].phase == Done;
        assert a.k == |s.entered|;
      }
      if a.Finish? {
        assert Linked(s, a.k);
      }
      forall k | 0 <= k < |t.calls| ensures Linked(t, k) {
        if k < |s.calls| {
          assert Linked(s, k);
          assert DoneBefore(s, k) ==> DoneBefore(t, k);
        }
      }
    }
  }

  lemma {:induction false} RunKeepsInv(s: State, actions: seq<Action>)
    requires Inv(s)
    ensures Inv(Run(s, actions))
    decreases |actions|
  {
    if actions != [] {
      StepKeepsInv(s, actions[0]);
      RunKeepsInv(Next(s, actions[0]), actions[1..]);
    }
  }

  // ----- safety of every interleaving

  lemma OneRunning(s: State, i: nat, j: nat)
    requires Inv(s) && i < |s.calls| && j < |s.calls|
    requires s.calls[i].phase == s.calls[j].phase == Running
    ensures i == j
  {
    assert Linked(s, i) && Linked(s, j);
  }

  /** At most one action runs, no call has overtaken another, and the mutex is deleted exactly when all have left. */
  lemma Serialized(actions: seq<Action>)
    ensures var s := Run(INITIAL, actions);
      && (forall i, j :: 0 <= i < |s.calls| && 0 <= j < |s.calls| && s.calls[i].phase == s.calls[j].phase == Running
            ==> i == j)
      && (forall i, j :: 0 <= i < j < |s.calls| && s.calls[j].phase != Waiting ==> s.calls[i].phase == Done)
      && (forall i :: 0 <= i < |s.entered| ==> s.entered[i] == i)
      && (s.turnMutex.None? <==> forall k :: 0 <= k < |s.calls| ==> s.calls[k].phase == Done)
  {
    RunKeepsInv(INITIAL, actions);
    var s := Run(INITIAL, actions);
    forall i, j | 0 <= i < j < |s.calls| && s.calls[j].phase != Waiting
      ensures s.calls[i].phase == Done
    {
      assert Linked(s, j);
    }
  }

  /** Tails resolve in order, and a call enters only after the tail it waited for. */
  ghost predicate TailsInOrder(s: State) {
    forall k :: 0 <= k < |s.calls| && s.calls[k].previous.Some? && (s.calls[k].phase != Waiting || s.calls[k].tailResolved) ==>
      Resolved(s, s.calls[k].previous)
  }

  lemma {:induction false} RunKeepsTails(s: State, actions: seq<Action>)
    requires Inv(s) && TailsInOrder(s)
    ensures TailsInOrder(Run(s, actions))
    decreases |actions|
  {
    if actions != [] {
      StepKeepsInv(s, actions[0]);
      assert TailsInOrder(Next(s, actions[0]));
      RunKeepsTails(Next(s, actions[0]), actions[1..]);
    }
  }

  // ----- progress

  predicate Internal(a: Action) {
    !a.Arrive?
  }

  lemma {:induction false} ResolvableTail(s: State, k: nat) returns (a: Action)
    requires Inv(s) && k < |s.calls| && DoneBefore(s, k + 1) && !s.calls[k].tailResolved
    ensures Internal(a) && Enabled(s, a)
  {
    assert Linked(s, k);
    if Resolved(s, s.calls[k].previous) {
      a := ResolveTail(k);
    } else {
      a := ResolvableTail(s, k - 1);
    }
  }

  /** While some call has not finished, some step other than an arrival is enabled. */
  lemma SomeStepEnabled(s: State, k: nat)
    requires Inv(s) && k < |s.calls| && s.calls[k].phase != Done
    ensures exists a :: Internal(a) && Enabled(s, a)
  {
    if !DoneBefore(s, k) {
      var j :| 0 <= j < k && s.calls[j].phase != Done;
      SomeStepEnabled(s, j);
    } else if s.calls[k].phase == Running {
      assert Enabled(s, Finish(k));
    } else if Resolved(s, s.calls[k].previous) {
      assert Enabled(s, Enter(k));
    } else {
      assert Linked(s, k);
      var a := ResolvableTail(s, k - 1);
    }
  }

  function Weight(c: Call): nat {
    (match c.phase case Waiting => 2 case Running => 1 case Done => 0) + if c.tailResolved then 0 else 1
  }

  function Measure(calls: seq<Call>): nat {
    if calls == [] then 0 else Weight(calls[0]) + Measure(calls[1..])
  }

  lemma {:induction false} LighterCall(calls: seq<Call>, k: nat, c: Call)
    requires k < |calls|
    ensures Measure(calls[k := c]) == Measure(calls) - Weight(calls[k]) + Weight(c)
    decreases k
  {
    if k != 0 {
      LighterCall(calls[1..], k - 1, c);
      assert calls[k := c][1..] == calls[1..][k - 1 := c];
    } else {
      assert calls[0 := c][1..] == calls[1..];
    }
  }

  /** Every step but an arrival makes the measure smaller: without arrivals a run cannot go on for ever. */
  lemma MeasureDecreases(s: State, a: Action)
    requires Internal(a) && Enabled(s, a)
    ensures Measure(Apply(s, a).calls) < Measure(s.calls)
  {
    LighterCall(s.calls, a.k, Apply(s, a).calls[a.k]);
  }

  /** From every reachable state a run without arrivals lets every waiting call enter and leave. */
  lemma {:induction false} EveryoneLeaves(s: State) returns (rest: seq<Action>)
    requires Inv(s)
    ensures forall i :: 0 <= i < |rest| ==> Internal(rest[i])
    ensures |rest| <= Measure(s.calls)
    ensures |Run(s, rest).calls| == |s.calls| && DoneBefore(Run(s, rest), |s.calls|)
    decreases Measure(s.calls)
  {
    if DoneBefore(s, |s.calls|) {
      rest := [];
    } else {
      var k :| 0 <= k < |s.calls| && s.calls[k].phase != Done;
      SomeStepEnabled(s, k);
      var a :| Internal(a) && Enabled(s, a);
      MeasureDecreases(s, a);
      StepKeepsInv(s, a);
      var more := EveryoneLeaves(Next(s, a));
      rest := [a] + more;
    }
  }

  // ----- the code, one method for each stretch between awaits

  class TurnQueue {
    var turnMutex: Option<nat>
    var calls: seq<Call>
    var entered: seq<nat>

    function View(): State
      reads this
    {
      State(turnMutex, calls, entered)
    }

    constructor ()
      ensures View() == INITIAL && Inv(View())
    {
      turnMutex, calls, entered := None, [], [];
    }

    /** Up to `await previous`: read the mutex, and make the own tail the new mutex. */
    method Arrive() returns (k: nat)
      requires Inv(View())
      modifies this
      ensures View() == Apply(old(View()), Action.Arrive) && Inv(View())
      ensures k == old(|calls|) && calls[k].previous == old(turnMutex)
    {
      StepKeepsInv(View(), Action.Arrive);
      var previous := turnMutex;
      k := |calls|;
      calls := calls + [Call(previous, Waiting, false)];
      turnMutex := Some(k);
    }

    /** `await previous` returns and the action begins: nobody else is running. */
    method Enter(k: nat)
      requires Inv(View()) && Enabled(View(), Action.Enter(k))
      modifies this
      ensures View() == Apply(old(View()), Action.Enter(k)) && Inv(View())
      ensures forall j :: 0 <= j < |calls| && j != k ==> calls[j].phase != Running
    {
      StepKeepsInv(View(), Action.Enter(k));
      calls := calls[k := calls[k].(phase := Running)];
      entered := entered + [k];
      assert Linked(View(), k);
      forall j | k < j < |calls| ensures calls[j].phase != Running {
        assert Linked(View(), j);
      }
    }

    /** The `finally` block, whether the action returned or threw. */
    method Finish(k: nat)
      requires Inv(View()) && Enabled(View(), Action.Finish(k))
      modifies this
      ensures View() == Apply(old(View()), Action.Finish(k)) && Inv(View())
    {
      StepKeepsInv(View(), Action.Finish(k));
      calls := calls[k := calls[k].(phase := Done)];
      if turnMutex == Some(k) {
        turnMutex := None;
      }
    }

    /** The continuation of `previous.then(() => own)`. */
    method ResolveTail(k: nat)
      requires Inv(View()) && Enabled(View(), Action.ResolveTail(k))
      modifies this
      ensures View() == Apply(old(View()), Action.ResolveTail(k)) && Inv(View())
    {
      StepKeepsInv(View(), Action.ResolveTail(k));
      calls := calls[k := calls[k].(tailResolved := true)];
    }
  }
}
