/**
  The dashboard limit under concurrency: a run reads the number of dashboards, and
  creates its own only some awaits later.  Any list of actions is an interleaving.
 */
module DashboardCap {
  import opened Wrappers
  import opened DepartmentWork

  /** `Admitted` is past the check (or not subject to it), `Charted` has stored its result, `Ended` has returned. */
  datatype Point = Begun | Admitted | Charted | Ended

  datatype Run = Run(organizationId: string, capability: Capability, point: Point)

  datatype State = State(runs: seq<Run>, results: seq<WorkResult>)

  datatype Action =
    | Begin(organizationId: string, capability: Capability)
    | Check(k: nat)
    | Chart(k: nat)
    | End(k: nat)

  const INITIAL: State := State([], [])

  predicate Enabled(s: State, a: Action) {
    match a
    case Begin(_, _) => true
    case Check(k) => k < |s.runs| && s.runs[k].point.Begun?
    case Chart(k) => k < |s.runs| && s.runs[k].point.Admitted? && HasExecutor(s.runs[k].capability)
    case End(k) => k < |s.runs| && (s.runs[k].point.Admitted? || s.runs[k].point.Charted?)
  }

  function Move(s: State, k: nat, point: Point): State
    requires k < |s.runs|
  {
    s.(runs := s.runs[k := s.runs[k].(point := point)])
  }

  function Apply(s: State, a: Action): State
    requires Enabled(s, a)
  {
    match a
    case Begin(organizationId, capability) => s.(runs := s.runs + [Run(organizationId, capability, Begun)])
    case Check(k) =>
      var full := s.runs[k].capability in DASHBOARD_RESULT_CAPABILITIES &&
                  CountDashboards(s.results, s.runs[k].organizationId) >= MAX_ACTIVE_DASHBOARDS;
      Move(s, k, if full then Ended else Admitted)
    case Chart(k) =>
      Move(s, k, Charted).(results := s.results + [WorkResult("", s.runs[k].organizationId, "", s.runs[k].capability, true)])
    case End(k) => Move(s, k, Ended)
  }

  function Next(s: State, a: Action): State {
    if Enabled(s, a) then Apply(s, a) else s
  }

  function Execute(s: State, actions: seq<Action>): State
    decreases |actions|
  {
    if actions == [] then s else Execute(Next(s, actions[0]), actions[1..])
  }

  // ----- counting runs

  // ----- a run that nothing comes between

  /** The surroundings in which nothing but the limit and the executor table stands in a run's way. */
  const NO_OBSTACLE := Surroundings(true, true, true, Done, Done, true)

  /** Checked, charted and ended in one go, a run is refused, or stores its one result, exactly as the executor does. */
  lemma {:induction false} RunAlone(s: State, organizationId: string, capability: Capability, other: string)
    ensures var k, ending := |s.runs|, RunEnding(WorkInput(organizationId, capability), NO_OBSTACLE, CountDashboards(s.results, organizationId));
      var checked := Next(Next(s, Begin(organizationId, capability)), Check(k));
      var ended := Next(Next(checked, Chart(k)), End(k));
      && checked.runs == s.runs + [Run(organizationId, capability, if ending.code == Some("dashboard_limit") then Ended else Admitted)]
      && ended.runs == s.runs + [Run(organizationId, capability, Ended)]
      && CountDashboards(ended.results, other) ==
         CountDashboards(s.results, other) + if ending.stored && other == organizationId then 1 else 0
  {
    OneMoreResult(s.results, WorkResult("", organizationId, "", capability, true), other);
    var k, begun := |s.runs|, Next(s, Begin(organizationId, capability));
    assert begun == s.(runs := s.runs + [Run(organizationId, capability, Begun)]);
    var checked := Next(begun, Check(k));
    assert |checked.runs| == k + 1 && checked.runs[..k] == s.runs;
    assert checked.runs[k].organizationId == organizationId && checked.runs[k].capability == capability;
    var charted := Next(checked, Chart(k));
    assert |charted.runs| == k + 1 && charted.runs[..k] == s.runs;
  }

  predicate InFlight(run: Run) {
    !run.point.Ended?
  }

  /** Past the check and still able to store a chart. */
  predicate MayChart(run: Run) {
    run.point.Admitted? && HasExecutor(run.capability)
  }

  function Count(runs: seq<Run>, organizationId: string, which: Run -> bool): nat {
    if runs == [] then 0
    else Count(runs[1..], organizationId, which) +
         if runs[0].organizationId == organizationId && which(runs[0]) then 1 else 0
  }

  lemma {:induction false} CountAppend(a: seq<Run>, b: seq<Run>, organizationId: string, which: Run -> bool)
    ensures Count(a + b, organizationId, which) == Count(a, organizationId, which) + Count(b, organizationId, which)
    decreases |a|
  {
    if a == [] {
      assert a + b == b;
    } else {
      CountAppend(a[1..], b, organizationId, which);
      assert (a + b)[1..] == a[1..] + b;
    }
  }

  lemma {:induction false} CountUpdate(runs: seq<Run>, k: nat, run: Run, organizationId: string, which: Run -> bool)
    requires k < |runs|
    ensures Count(runs[k := run], organizationId, which) == Count(runs, organizationId, which)
              - (if runs[k].organizationId == organizationId && which(runs[k]) then 1 else 0)
              + (if run.organizationId == organizationId && which(run) then 1 else 0)
    decreases k
  {
    if k == 0 {
      assert runs[0 := run][1..] == runs[1..];
    } else {
      CountUpdate(runs[1..], k - 1, run, organizationId, which);
      assert runs[k := run][1..] == runs[1..][k - 1 := run];
    }
  }

  lemma {:induction false} CountImplied(runs: seq<Run>, organizationId: string, p: Run -> bool, q: Run -> bool)
    requires forall run :: p(run) ==> q(run)
    ensures Count(runs, organizationId, p) <= Count(runs, organizationId, q)
    decreases |runs|
  {
    if runs != [] {
      CountImplied(runs[1..], organizationId, p, q);
    }
  }

  // ----- the bound

  /** All along the run, at most `bound` runs of the organization are in flight. */
  ghost predicate AtMostInFlight(s: State, actions: seq<Action>, organizationId: string, bound: nat)
    decreases |actions|
  {
    && Count(s.runs, organizationId, InFlight) <= bound
    && (actions != [] ==> AtMostInFlight(Next(s, actions[0]), actions[1..], organizationId, bound))
  }

  /** Dashboards stored, plus runs that may still store one, never exceed the limit less one plus the bound. */
  ghost predicate Bounded(s: State, organizationId: string, bound: nat) {
    CountDashboards(s.results, organizationId) + Count(s.runs, organizationId, MayChart)
      <= MAX_ACTIVE_DASHBOARDS - 1 + bound
  }

  lemma StepKeepsBound(s: State, a: Action, organizationId: string, bound: nat)
    requires Bounded(s, organizationId, bound)
    requires Count(Next(s, a).runs, organizationId, InFlight) <= bound
    ensures Bounded(Next(s, a), organizationId, bound)
  {
    var t := Next(s, a);
    if Enabled(s, a) {
      if a.Begin? {
        CountAppend(s.runs, [Run(a.organizationId, a.capability, Begun)], organizationId, MayChart);
      } else {
        CountUpdate(s.runs, a.k, t.runs[a.k], organizationId, MayChart);
        if a.Chart? {
          OneMoreResult(s.results, t.results[|s.results|], organizationId);
        } else if a.Check? && t.runs[a.k].point.Admitted? {
          CountImplied(t.runs, organizationId, MayChart, InFlight);
        }
      }
    }
  }

  lemma {:induction false} RunKeepsBound(s: State, actions: seq<Action>, organizationId: string, bound: nat)
    requires Bounded(s, organizationId, bound) && AtMostInFlight(s, actions, organizationId, bound)
    ensures Bounded(Execute(s, actions), organizationId, bound)
    decreases |actions|
  {
    if actions != [] {
      StepKeepsBound(s, actions[0], organizationId, bound);
      RunKeepsBound(Next(s, actions[0]), actions[1..], organizationId, bound);
    }
  }

  /** With at most `bound` runs in flight an organization never holds more than 4 + `bound` dashboards. */
  lemma NeverMoreThanFourPlus(actions: seq<Action>, organizationId: string, bound: nat)
    requires AtMostInFlight(INITIAL, actions, organizationId, bound)
    ensures CountDashboards(Execute(INITIAL, actions).results, organizationId) <= MAX_ACTIVE_DASHBOARDS - 1 + bound
  {
    RunKeepsBound(INITIAL, actions, organizationId, bound);
  }

  // ----- the bound is reached

  function Same(n: nat, organizationId: string, point: Point): seq<Run> {
    seq(n, _ => Run(organizationId, ContactsList, point))
  }

  lemma {:induction false} CountSame(n: nat, organizationId: string, point: Point)
    ensures Count(Same(n, organizationId, point), organizationId, InFlight) == if point.Ended? then 0 else n
    decreases n
  {
    if n > 0 {
      CountSame(n - 1, organizationId, point);
      assert Same(n, organizationId, point)[1..] == Same(n - 1, organizationId, point);
    }
  }

  lemma {:induction false} ExecuteThen(s: State, first: seq<Action>, second: seq<Action>, organizationId: string, bound: nat)
    requires AtMostInFlight(s, first, organizationId, bound)
    requires AtMostInFlight(Execute(s, first), second, organizationId, bound)
    ensures Execute(s, first + second) == Execute(Execute(s, first), second)
    ensures AtMostInFlight(s, first + second, organizationId, bound)
    decreases |first|
  {
    if first == [] {
      assert first + second == second;
    } else {
      ExecuteThen(Next(s, first[0]), first[1..], second, organizationId, bound);
      assert (first + second)[1..] == first[1..] + second;
    }
  }

  /** The state with `ended` finished runs, then `a` runs at one point, then `b` at another, and `n` dashboards. */
  function Shape(organizationId: string, ended: nat, a: nat, p: Point, b: nat, q: Point, n: nat): State {
    State(Same(ended, organizationId, Ended) + Same(a, organizationId, p) + Same(b, organizationId, q),
          seq(n, _ => WorkResult("", organizationId, "", ContactsList, true)))
  }

  lemma {:induction false} DashboardsOfShape(organizationId: string, n: nat)
    ensures CountDashboards(seq(n, _ => WorkResult("", organizationId, "", ContactsList, true)), organizationId) == n
    decreases n
  {
    if n > 0 {
      DashboardsOfShape(organizationId, n - 1);
      assert seq(n, _ => WorkResult("", organizationId, "", ContactsList, true))[..n - 1]
          == seq(n - 1, _ => WorkResult("", organizationId, "", ContactsList, true));
    }
  }

  lemma ShapeInFlight(s: State, organizationId: string, ended: nat, a: nat, p: Point, b: nat, q: Point, n: nat)
    requires s == Shape(organizationId, ended, a, p, b, q, n)
    ensures Count(s.runs, organizationId, InFlight) == (if p.Ended? then 0 else a) + (if q.Ended? then 0 else b)
  {
    CountSame(ended, organizationId, Ended);
    CountSame(a, organizationId, p);
    CountSame(b, organizationId, q);
    CountAppend(Same(ended, organizationId, Ended), Same(a, organizationId, p), organizationId, InFlight);
    CountAppend(Same(ended, organizationId, Ended) + Same(a, organizationId, p), Same(b, organizationId, q), organizationId, InFlight);
  }

  /** Which action brings run `k` to the point. */
  function Advance(organizationId: string, point: Point, k: nat): Action {
    match point
    case Begun => Begin(organizationId, ContactsList)
    case Admitted => Check(k)
    case Charted => Chart(k)
    case Ended => End(k)
  }

  function Before(point: Point): Point {
    match point
    case Begun => Begun
    case Admitted => Begun
    case Charted => Admitted
    case Ended => Charted
  }

  /** One run of the group moves on; `k` of `n` have moved already. */
  lemma OneAdvances(organizationId: string, ended: nat, k: nat, n: nat, point: Point, dashboards: nat)
    requires k < n && (point.Admitted? ==> dashboards < MAX_ACTIVE_DASHBOARDS)
    ensures var waiting := if point.Begun? then 0 else n - k;
      Next(Shape(organizationId, ended, k, point, waiting, Before(point), dashboards), Advance(organizationId, point, ended + k))
      == Shape(organizationId, ended, k + 1, point, if point.Begun? then 0 else n - k - 1, Before(point),
               if point.Charted? then dashboards + 1 else dashboards)
  {
    var waiting := if point.Begun? then 0 else n - k;
    var left := if point.Begun? then 0 else n - k - 1;
    var s := Shape(organizationId, ended, k, point, waiting, Before(point), dashboards);
    DashboardsOfShape(organizationId, dashboards);
    var t := Next(s, Advance(organizationId, point, ended + k));
    var u := Shape(organizationId, ended, k + 1, point, left, Before(point), if point.Charted? then dashboards + 1 else dashboards);
    if point.Begun? {
      assert t.runs == u.runs;
    } else {
      assert s.runs[ended + k] == Run(organizationId, ContactsList, Before(point));
      assert t.runs == u.runs;
    }
    assert t.results == u.results;
  }

  /** The whole group moves on, one run after another. */
  lemma {:induction false} GroupAdvances(organizationId: string, ended: nat, k: nat, n: nat, point: Point, dashboards: nat, bound: nat)
    returns (actions: seq<Action>)
    requires k <= n <= bound && (point.Admitted? ==> dashboards < MAX_ACTIVE_DASHBOARDS)
    ensures var waiting := if point.Begun? then 0 else n - k;
      var s := Shape(organizationId, ended, k, point, waiting, Before(point), dashboards);
      && AtMostInFlight(s, actions, organizationId, bound)
      && Execute(s, actions) == Shape(organizationId, ended, n, point, 0, Before(point),
                                      if point.Charted? then dashboards + (n - k) else dashboards)
    decreases n - k
  {
    var waiting := if point.Begun? then 0 else n - k;
    var s := Shape(organizationId, ended, k, point, waiting, Before(point), dashboards);
    ShapeInFlight(s, organizationId, ended, k, point, waiting, Before(point), dashboards);
    if k == n {
      actions := [];
    } else {
      OneAdvances(organizationId, ended, k, n, point, dashboards);
      var rest := GroupAdvances(organizationId, ended, k + 1, n, point, if point.Charted? then dashboards + 1 else dashboards, bound);
      actions := [Advance(organizationId, point, ended + k)] + rest;
      assert actions[1..] == rest;
    }
  }

  lemma SameShape(organizationId: string, ended: nat, n: nat, p: Point, q: Point, dashboards: nat)
    ensures Shape(organizationId, ended, n, p, 0, q, dashboards) == Shape(organizationId, ended, 0, q, n, p, dashboards)
    ensures Shape(organizationId, ended, n, Ended, 0, q, dashboards) == Shape(organizationId, ended + n, 0, q, 0, p, dashboards)
  {
    assert Same(ended, organizationId, Ended) + Same(n, organizationId, Ended) == Same(ended + n, organizationId, Ended);
  }

  /** A group of `n` runs begins, is admitted and charts, all before any of them ends. */
  lemma Burst(organizationId: string, n: nat, dashboards: nat, bound: nat) returns (actions: seq<Action>)
    requires 1 <= n <= bound && dashboards < MAX_ACTIVE_DASHBOARDS
    ensures var s := Shape(organizationId, dashboards, 0, Ended, 0, Ended, dashboards);
      && AtMostInFlight(s, actions, organizationId, bound)
      && Execute(s, actions) == Shape(organizationId, dashboards, n, Charted, 0, Admitted, dashboards + n)
  {
    var s := Shape(organizationId, dashboards, 0, Ended, 0, Ended, dashboards);
    assert s == Shape(organizationId, dashboards, 0, Begun, 0, Begun, dashboards);
    var begins := GroupAdvances(organizationId, dashboards, 0, n, Begun, dashboards, bound);
    SameShape(organizationId, dashboards, n, Begun, Begun, dashboards);
    var checks := GroupAdvances(organizationId, dashboards, 0, n, Admitted, dashboards, bound);
    assert Shape(organizationId, dashboards, 0, Begun, n, Begun, dashboards)
        == Shape(organizationId, dashboards, 0, Admitted, n, Begun, dashboards);
    ExecuteThen(s, begins, checks, organizationId, bound);
    SameShape(organizationId, dashboards, n, Admitted, Begun, dashboards);
    assert Shape(organizationId, dashboards, 0, Begun, n, Admitted, dashboards)
        == Shape(organizationId, dashboards, 0, Charted, n, Admitted, dashboards);
    var charts := GroupAdvances(organizationId, dashboards, 0, n, Charted, dashboards, bound);
    ExecuteThen(s, begins + checks, charts, organizationId, bound);
    actions := begins + checks + charts;
  }

  /** Runs one after another fill the organization up to a number of dashboards below the limit. */
  lemma {:induction false} FillUp(organizationId: string, dashboards: nat, bound: nat) returns (actions: seq<Action>)
    requires dashboards < MAX_ACTIVE_DASHBOARDS && 1 <= bound
    ensures AtMostInFlight(INITIAL, actions, organizationId, bound)
    ensures Execute(INITIAL, actions) == Shape(organizationId, dashboards, 0, Ended, 0, Ended, dashboards)
    decreases dashboards
  {
    if dashboards == 0 {
      actions := [];
      assert INITIAL == Shape(organizationId, 0, 0, Ended, 0, Ended, 0);
    } else {
      var before := FillUp(organizationId, dashboards - 1, bound);
      var one := Burst(organizationId, 1, dashboards - 1, bound);
      ExecuteThen(INITIAL, before, one, organizationId, bound);
      SameShape(organizationId, dashboards - 1, 1, Charted, Admitted, dashboards);
      assert Shape(organizationId, dashboards - 1, 0, Admitted, 1, Charted, dashboards)
          == Shape(organizationId, dashboards - 1, 0, Ended, 1, Charted, dashboards);
      var end := GroupAdvances(organizationId, dashboards - 1, 0, 1, Ended, dashboards, bound);
      ExecuteThen(INITIAL, before + one, end, organizationId, bound);
      SameShape(organizationId, dashboards - 1, 1, Ended, Charted, dashboards);
      assert Shape(organizationId, dashboards, 0, Charted, 0, Ended, dashboards)
          == Shape(organizationId, dashboards, 0, Ended, 0, Ended, dashboards);
      actions := before + one + end;
    }
  }

  lemma BoundIsReached(organizationId: string, bound: nat) returns (actions: seq<Action>)
    requires 1 <= bound
    ensures AtMostInFlight(INITIAL, actions, organizationId, bound)
    ensures CountDashboards(Execute(INITIAL, actions).results, organizationId) == MAX_ACTIVE_DASHBOARDS - 1 + bound
  {
    var fill := FillUp(organizationId, MAX_ACTIVE_DASHBOARDS - 1, bound);
    var burst := Burst(organizationId, bound, MAX_ACTIVE_DASHBOARDS - 1, bound);
    ExecuteThen(INITIAL, fill, burst, organizationId, bound);
    DashboardsOfShape(organizationId, MAX_ACTIVE_DASHBOARDS - 1 + bound);
    actions := fill + burst;
  }

  /** The documented limit holds in every interleaving if and only if an organization runs one executor at a time. */
  lemma LimitHoldsIffOneInFlight(organizationId: string, bound: nat)
    ensures (forall actions :: AtMostInFlight(INITIAL, actions, organizationId, bound) ==>
               CountDashboards(Execute(INITIAL, actions).results, organizationId) <= MAX_ACTIVE_DASHBOARDS)
            <==> bound <= 1
  {
    if bound <= 1 {
      forall actions | AtMostInFlight(INITIAL, actions, organizationId, bound)
        ensures CountDashboards(Execute(INITIAL, actions).results, organizationId) <= MAX_ACTIVE_DASHBOARDS
      {
        NeverMoreThanFourPlus(actions, organizationId, bound);
      }
    } else {
      var actions := BoundIsReached(organizationId, bound);
    }
  }
}
