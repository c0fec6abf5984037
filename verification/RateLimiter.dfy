/**
 The lock-free frame rate limiter: any number of tasks interleave the clock
 read, the relaxed load and the compare-exchange of `try_emit` on one atomic.
 */
module RateLimiter {
  import opened Numbers

  type TaskId = nat

  /** The test `try_emit` makes; `u64::MAX` stands for "never emitted". */
  predicate Passes(budget: nat, now: nat, last: nat) {
    last == U64_MAX || SaturatingSub(now, last) >= budget
  }

  // ---------------------------------------------------------------------------
  // Interleaved execution
  // ---------------------------------------------------------------------------

  /** Where a task is inside its call of `try_emit`. */
  datatype Phase =
    | HasNow(now: nat)
    | HasLast(now: nat, last: nat)
    | Returned(emitted: bool, now: nat, last: nat)

  datatype Win = Win(task: TaskId, from: nat, to: nat)

  datatype Loss = Loss(task: TaskId, loaded: nat)

  /** `writes` is the atomic's modification order, its last element the current
      value; `wins` and `losses` record the exchanges that succeeded and failed. */
  datatype State = State(
    budget: nat,
    writes: seq<nat>,
    tasks: map<TaskId, Phase>,
    wins: seq<Win>,
    losses: seq<Loss>)

  function Init(budget: nat): State {
    State(budget, [U64_MAX], map[], [], [])
  }

  /** A relaxed load may return any value of the modification order, not only the newest. */
  datatype Step = ReadClock(t: TaskId, now: nat) | Load(t: TaskId, age: nat) | Exchange(t: TaskId)

  predicate Enabled(s: State, step: Step) {
    match step
    case ReadClock(t, now) => t !in s.tasks && now < U64_MAX
    case Load(t, age) => t in s.tasks && s.tasks[t].HasNow? && age < |s.writes|
    case Exchange(t) => t in s.tasks && s.tasks[t].HasLast? && 0 < |s.writes|
  }

  function Apply(s: State, step: Step): State
    requires Enabled(s, step)
  {
    match step
    case ReadClock(t, now) => s.(tasks := s.tasks[t := HasNow(now)])
    case Load(t, age) => s.(tasks := s.tasks[t := HasLast(s.tasks[t].now, s.writes[|s.writes| - 1 - age])])
    case Exchange(t) =>
      var HasLast(now, last) := s.tasks[t];
      if !Passes(s.budget, now, last) then
        s.(tasks := s.tasks[t := Returned(false, now, last)])
      else if s.writes[|s.writes| - 1] == last then
        s.(tasks := s.tasks[t := Returned(true, now, last)],
           writes := s.writes + [now],
           wins := s.wins + [Win(t, last, now)])
      else
        s.(tasks := s.tasks[t := Returned(true, now, last)],
           losses := s.losses + [Loss(t, last)])
  }

  ghost predicate Reachable(s: State, budget: nat, steps: seq<Step>)
    decreases |steps|
  {
    if steps == [] then s == Init(budget)
    else
      var n := |steps| - 1;
      exists before :: Reachable(before, budget, steps[..n]) && Enabled(before, steps[n]) && s == Apply(before, steps[n])
  }

  /** The modification order starts at the sentinel and then rises by at least a budget each time. */
  ghost predicate Spaced(budget: nat, writes: seq<nat>) {
    && |writes| > 0
    && writes[0] == U64_MAX
    && (forall i :: 0 < i < |writes| ==> writes[i] < U64_MAX)
    && forall i, j :: 0 < i && j == i + 1 && j < |writes| ==> writes[j] >= writes[i] + budget
  }

  /** The successful exchanges are the successive pairs of the modification order. */
  ghost predicate Chained(writes: seq<nat>, wins: seq<Win>) {
    && |writes| == |wins| + 1
    && forall i :: 0 <= i < |wins| ==> wins[i].from == writes[i] && wins[i].to == writes[i + 1]
  }

  ghost predicate TaskInv(budget: nat, writes: seq<nat>, p: Phase) {
    && p.now < U64_MAX
    && (!p.HasNow? ==> p.last in writes)
    && (p.Returned? ==> (p.emitted <==> Passes(budget, p.now, p.last)))
  }

  /** A lost exchange had loaded a value that has since been overwritten. */
  ghost predicate Overwritten(writes: seq<nat>, v: nat) {
    exists i :: 0 <= i < |writes| - 1 && writes[i] == v
  }

  ghost predicate Inv(s: State) {
    && s.budget > 0
    && Spaced(s.budget, s.writes)
    && Chained(s.writes, s.wins)
    && (forall t :: t in s.tasks ==> TaskInv(s.budget, s.writes, s.tasks[t]))
    && (forall i :: 0 <= i < |s.losses| ==> Overwritten(s.writes, s.losses[i].loaded))
  }

  lemma {:induction false} WritesIncrease(budget: nat, writes: seq<nat>, i: nat, j: nat)
    requires Spaced(budget, writes) && 0 < i < j < |writes|
    ensures writes[j] >= writes[i] + (j - i) * budget
    decreases j - i
  {
    if j == i + 1 {
      assert (j - i) * budget == budget;
    } else {
      WritesIncrease(budget, writes, i, j - 1);
      assert writes[j] >= writes[j - 1] + budget;
      assert (j - i) * budget == (j - 1 - i) * budget + budget;
    }
  }

  lemma AtLeastOne(n: nat, budget: nat)
    requires n > 0 && budget > 0
    ensures n * budget > 0
  {
  }

  lemma WritesAreDistinct(budget: nat, writes: seq<nat>, i: nat, j: nat)
    requires budget > 0 && Spaced(budget, writes) && i < j < |writes|
    ensures writes[i] != writes[j]
  {
    if i > 0 {
      WritesIncrease(budget, writes, i, j);
      AtLeastOne(j - i, budget);
    }
  }

  lemma SpacedSnoc(budget: nat, writes: seq<nat>, now: nat)
    requires Spaced(budget, writes) && now < U64_MAX
    requires budget > 0 && Passes(budget, now, writes[|writes| - 1])
    ensures Spaced(budget, writes + [now])
  {
    assert |writes| > 1 ==> writes[|writes| - 1] < U64_MAX;
  }

  lemma ChainedSnoc(writes: seq<nat>, wins: seq<Win>, t: TaskId, now: nat)
    requires Chained(writes, wins)
    ensures Chained(writes + [now], wins + [Win(t, writes[|writes| - 1], now)])
  {
  }

  lemma OverwrittenSnoc(writes: seq<nat>, v: nat, now: nat)
    requires Overwritten(writes, v)
    ensures Overwritten(writes + [now], v)
  {
    var i :| 0 <= i < |writes| - 1 && writes[i] == v;
    assert (writes + [now])[i] == v;
  }

  lemma WinKeepsInv(s: State, t: TaskId)
    requires Inv(s) && Enabled(s, Exchange(t))
    requires Passes(s.budget, s.tasks[t].now, s.tasks[t].last)
    requires s.writes[|s.writes| - 1] == s.tasks[t].last
    ensures Inv(Apply(s, Exchange(t)))
  {
    var now := s.tasks[t].now;
    assert TaskInv(s.budget, s.writes, s.tasks[t]);
    SpacedSnoc(s.budget, s.writes, now);
    ChainedSnoc(s.writes, s.wins, t, now);
    forall u | u in s.tasks ensures TaskInv(s.budget, s.writes + [now], s.tasks[u]) {
      assert TaskInv(s.budget, s.writes, s.tasks[u]);
    }
    forall k | 0 <= k < |s.losses| ensures Overwritten(s.writes + [now], s.losses[k].loaded) {
      OverwrittenSnoc(s.writes, s.losses[k].loaded, now);
    }
  }

  lemma StepKeepsInv(s: State, step: Step)
    requires Inv(s) && Enabled(s, step)
    ensures Inv(Apply(s, step))
  {
    match step
    case ReadClock(_, _) =>
    case Load(t, _) =>
      assert TaskInv(s.budget, s.writes, s.tasks[t]);
    case Exchange(t) =>
      assert TaskInv(s.budget, s.writes, s.tasks[t]);
      if Passes(s.budget, s.tasks[t].now, s.tasks[t].last) {
        if s.writes[|s.writes| - 1] == s.tasks[t].last {
          WinKeepsInv(s, t);
        } else {
          assert Overwritten(s.writes, s.tasks[t].last);
        }
      }
  }

  lemma {:induction false} ReachableInv(s: State, budget: nat, steps: seq<Step>)
    requires budget > 0 && Reachable(s, budget, steps)
    ensures Inv(s) && s.budget == budget
    decreases |steps|
  {
    if steps != [] {
      var n := |steps| - 1;
      var before :| Reachable(before, budget, steps[..n]) && Enabled(before, steps[n]) && s == Apply(before, steps[n]);
      ReachableInv(before, budget, steps[..n]);
      StepKeepsInv(before, steps[n]);
    }
  }

  /** In every interleaving a call returns true if and only if the value it loaded says "never
      emitted" or lies at least the budget before its clock reading. */
  lemma CallEmitsIff(s: State, budget: nat, steps: seq<Step>, t: TaskId)
    requires budget > 0 && Reachable(s, budget, steps) && t in s.tasks && s.tasks[t].Returned?
    ensures s.tasks[t].emitted <==> s.tasks[t].last == 0xFFFF_FFFF_FFFF_FFFF || s.tasks[t].now >= s.tasks[t].last + budget
  {
    ReachableInv(s, budget, steps);
    assert TaskInv(budget, s.writes, s.tasks[t]);
  }

  /** In every interleaving, the installed timestamps are at least a frame budget
      apart: the `j`-th is at least `j - i` budgets after the `i`-th. */
  lemma InstalledTimestampsAreSpaced(s: State, budget: nat, steps: seq<Step>, i: nat, j: nat)
    requires budget > 0 && Reachable(s, budget, steps)
    requires i < j < |s.wins|
    ensures s.wins[j].to >= s.wins[i].to + (j - i) * budget
    ensures s.wins[j].to > s.wins[i].to
  {
    ReachableInv(s, budget, steps);
    WritesIncrease(budget, s.writes, i + 1, j + 1);
    AtLeastOne(j - i, budget);
  }

  /** In every interleaving, a task that emitted after losing its exchange loaded the
      same value as exactly one task whose exchange succeeded. */
  lemma LoserHasOneWinner(s: State, budget: nat, steps: seq<Step>, k: nat)
    requires budget > 0 && Reachable(s, budget, steps)
    requires k < |s.losses|
    ensures exists w :: 0 <= w < |s.wins| && s.wins[w].from == s.losses[k].loaded
    ensures forall v, w ::
      (0 <= v < |s.wins| && 0 <= w < |s.wins| && s.wins[v].from == s.wins[w].from == s.losses[k].loaded) ==> v == w
  {
    ReachableInv(s, budget, steps);
    assert Overwritten(s.writes, s.losses[k].loaded);
    var i :| 0 <= i < |s.writes| - 1 && s.writes[i] == s.losses[k].loaded;
    assert s.wins[i].from == s.losses[k].loaded;
    forall v, w | 0 <= v < |s.wins| && 0 <= w < |s.wins| && s.wins[v].from == s.wins[w].from == s.losses[k].loaded
      ensures v == w
    {
      if v < w { WritesAreDistinct(budget, s.writes, v, w); }
      if w < v { WritesAreDistinct(budget, s.writes, w, v); }
    }
  }

  // ---------------------------------------------------------------------------
  // One event per frame window
  // ---------------------------------------------------------------------------

  ghost predicate Won(s: State, t: TaskId) {
    exists i :: 0 <= i < |s.wins| && s.wins[i].task == t
  }

  ghost predicate Lost(s: State, t: TaskId) {
    exists k :: 0 <= k < |s.losses| && s.losses[k].task == t
  }

  /** Every recorded exchange belongs to a call that returned true, every such call is
      recorded, and no call both won and lost. */
  ghost predicate Recorded(s: State) {
    && (forall i :: 0 <= i < |s.wins| ==>
          var w := s.wins[i];
          w.task in s.tasks && s.tasks[w.task] == Returned(true, w.to, w.from))
    && (forall k :: 0 <= k < |s.losses| ==>
          var l := s.losses[k];
          && l.task in s.tasks
          && s.tasks[l.task].Returned? && s.tasks[l.task].emitted && s.tasks[l.task].last == l.loaded)
    && (forall i, k :: 0 <= i < |s.wins| && 0 <= k < |s.losses| ==> s.wins[i].task != s.losses[k].task)
    && (forall t :: t in s.tasks && s.tasks[t].Returned? && s.tasks[t].emitted ==> Won(s, t) || Lost(s, t))
  }

  lemma WonStays(s: State, s': State, t: TaskId)
    requires Won(s, t) || Lost(s, t)
    requires s.wins <= s'.wins && s.losses <= s'.losses
    ensures Won(s', t) || Lost(s', t)
  {
    if Won(s, t) {
      var i :| 0 <= i < |s.wins| && s.wins[i].task == t;
      assert s'.wins[i].task == t;
    } else {
      var k :| 0 <= k < |s.losses| && s.losses[k].task == t;
      assert s'.losses[k].task == t;
    }
  }

  /** A step after which no further call has returned true. */
  lemma QuietKeepsRecorded(s: State, step: Step)
    requires Recorded(s) && Enabled(s, step)
    requires step.Exchange? ==> !Passes(s.budget, s.tasks[step.t].now, s.tasks[step.t].last)
    ensures Recorded(Apply(s, step))
  {
    var s' := Apply(s, step);
    forall t | t in s'.tasks && s'.tasks[t].Returned? && s'.tasks[t].emitted
      ensures Won(s', t) || Lost(s', t)
    {
      assert t != step.t && s.tasks[t] == s'.tasks[t];
      WonStays(s, s', t);
    }
  }

  lemma EmitKeepsRecorded(s: State, u: TaskId)
    requires Recorded(s) && Enabled(s, Exchange(u))
    requires Passes(s.budget, s.tasks[u].now, s.tasks[u].last)
    ensures Recorded(Apply(s, Exchange(u)))
  {
    var s' := Apply(s, Exchange(u));
    if s'.wins != s.wins { assert s'.wins[|s.wins|].task == u; } else { assert s'.losses[|s.losses|].task == u; }
    forall t | t in s'.tasks && s'.tasks[t].Returned? && s'.tasks[t].emitted
      ensures Won(s', t) || Lost(s', t)
    {
      if t != u { WonStays(s, s', t); }
    }
  }

  lemma StepKeepsRecorded(s: State, step: Step)
    requires Recorded(s) && Enabled(s, step)
    ensures Recorded(Apply(s, step))
  {
    if step.Exchange? && Passes(s.budget, s.tasks[step.t].now, s.tasks[step.t].last) {
      EmitKeepsRecorded(s, step.t);
    } else {
      QuietKeepsRecorded(s, step);
    }
  }

  lemma {:induction false} ReachableRecorded(s: State, budget: nat, steps: seq<Step>)
    requires Reachable(s, budget, steps)
    ensures Recorded(s)
    decreases |steps|
  {
    if steps != [] {
      var n := |steps| - 1;
      var before :| Reachable(before, budget, steps[..n]) && Enabled(before, steps[n]) && s == Apply(before, steps[n]);
      ReachableRecorded(before, budget, steps[..n]);
      StepKeepsRecorded(before, steps[n]);
    }
  }

  ghost predicate Emitted(s: State, t: TaskId) {
    t in s.tasks && s.tasks[t].Returned? && s.tasks[t].emitted
  }

  /** Two clock readings at least a frame budget apart. */
  predicate Apart(budget: nat, a: nat, b: nat) {
    a + budget <= b || b + budget <= a
  }

  /** The documented promise: any two calls that emit read the clock at least a budget apart. */
  ghost predicate OneEventPerWindow(s: State) {
    forall t, u :: Emitted(s, t) && Emitted(s, u) && t != u ==> Apart(s.budget, s.tasks[t].now, s.tasks[u].now)
  }

  lemma WinnersAreApart(s: State, budget: nat, steps: seq<Step>, i: nat, j: nat)
    requires budget > 0 && Reachable(s, budget, steps)
    requires i < |s.wins| && j < |s.wins| && i != j
    ensures Apart(budget, s.wins[i].to, s.wins[j].to)
  {
    var first, second := if i < j then i else j, if i < j then j else i;
    InstalledTimestampsAreSpaced(s, budget, steps, first, second);
    assert (second - first) * budget >= budget by { OneOrMore(second - first, budget); }
  }

  lemma OneOrMore(n: nat, budget: nat)
    requires n > 0
    ensures n * budget >= budget
  {
  }

  /** Two emitting calls less than a budget apart: one of them lost its exchange. */
  lemma OnlyLosersCrowd(s: State, budget: nat, steps: seq<Step>, t: TaskId, u: TaskId)
    requires budget > 0 && Reachable(s, budget, steps)
    requires Emitted(s, t) && Emitted(s, u) && t != u
    ensures Apart(budget, s.tasks[t].now, s.tasks[u].now) || Lost(s, t) || Lost(s, u)
  {
    ReachableRecorded(s, budget, steps);
    if Won(s, t) && Won(s, u) {
      var i :| 0 <= i < |s.wins| && s.wins[i].task == t;
      var j :| 0 <= j < |s.wins| && s.wins[j].task == u;
      WinnersAreApart(s, budget, steps, i, j);
    }
  }

  /** Without a lost exchange there is at most one event per window. */
  lemma NoLossKeepsPromise(s: State, budget: nat, steps: seq<Step>)
    requires budget > 0 && Reachable(s, budget, steps) && s.losses == []
    ensures OneEventPerWindow(s)
  {
    ReachableInv(s, budget, steps);
    forall t, u | Emitted(s, t) && Emitted(s, u) && t != u ensures Apart(s.budget, s.tasks[t].now, s.tasks[u].now) {
      OnlyLosersCrowd(s, budget, steps, t, u);
    }
  }

  // ---------------------------------------------------------------------------
  // When callers can rely on it
  // ---------------------------------------------------------------------------

  /** A load that is fresh and made while no other call is between its load and its exchange. */
  ghost predicate Alone(s: State, step: Step) {
    step.Load? ==> step.age == 0 && forall u :: u in s.tasks ==> !s.tasks[u].HasLast?
  }

  /** A run in which the spans from load to exchange do not overlap. */
  ghost predicate Serial(s: State, budget: nat, steps: seq<Step>)
    decreases |steps|
  {
    if steps == [] then s == Init(budget)
    else
      var n := |steps| - 1;
      exists before :: Serial(before, budget, steps[..n]) && Enabled(before, steps[n]) && Alone(before, steps[n]) && s == Apply(before, steps[n])
  }

  /** At most one call is between its load and its exchange, and it holds the newest value. */
  ghost predicate Uncontended(s: State) {
    && |s.writes| > 0 && s.losses == []
    && (forall t :: t in s.tasks && s.tasks[t].HasLast? ==> s.tasks[t].last == s.writes[|s.writes| - 1])
    && (forall t, u :: t in s.tasks && u in s.tasks && s.tasks[t].HasLast? && s.tasks[u].HasLast? ==> t == u)
  }

  lemma AloneKeepsUncontended(s: State, step: Step)
    requires Uncontended(s) && Enabled(s, step) && Alone(s, step)
    ensures Uncontended(Apply(s, step))
  {
  }

  lemma {:induction false} SerialRun(s: State, budget: nat, steps: seq<Step>)
    requires Serial(s, budget, steps)
    ensures Reachable(s, budget, steps) && Uncontended(s)
    decreases |steps|
  {
    if steps != [] {
      var n := |steps| - 1;
      var before :| Serial(before, budget, steps[..n]) && Enabled(before, steps[n]) && Alone(before, steps[n]) && s == Apply(before, steps[n]);
      SerialRun(before, budget, steps[..n]);
      AloneKeepsUncontended(before, steps[n]);
    }
  }

  /** If no call loads while another is between its load and its exchange, and loads are fresh,
      no exchange is lost and the promise holds, whatever the clocks read. */
  lemma SerialCallsKeepPromise(s: State, budget: nat, steps: seq<Step>)
    requires budget > 0 && Serial(s, budget, steps)
    ensures s.losses == [] && OneEventPerWindow(s)
  {
    SerialRun(s, budget, steps);
    NoLossKeepsPromise(s, budget, steps);
  }

  // ---------------------------------------------------------------------------
  // Schedules: runs up to the clock readings
  // ---------------------------------------------------------------------------

  predicate SameStep(a: Step, b: Step) {
    a == b || (a.ReadClock? && b.ReadClock? && a.t == b.t)
  }

  /** The same interleaving, possibly with other clock readings. */
  ghost predicate SameSchedule(a: seq<Step>, b: seq<Step>) {
    |a| == |b| && forall i :: 0 <= i < |a| ==> SameStep(a[i], b[i])
  }

  /** `s` is reached at some point of the schedule, under the clock readings of `run`. */
  ghost predicate Meets(budget: nat, schedule: seq<Step>, run: seq<Step>, s: State) {
    |run| <= |schedule| && SameSchedule(schedule[..|run|], run) && Reachable(s, budget, run)
  }

  /** At most one event per window at every point of the schedule, under all clock readings. */
  ghost predicate KeepsPromise(budget: nat, schedule: seq<Step>) {
    forall run, s :: Meets(budget, schedule, run, s) ==> OneEventPerWindow(s)
  }

  /** No exchange of the schedule is lost, under any clock readings. */
  ghost predicate NeverLoses(budget: nat, schedule: seq<Step>) {
    forall run, s :: Meets(budget, schedule, run, s) ==> s.losses == []
  }

  function RetimedStep(step: Step, t: TaskId, now: nat): Step {
    if step.ReadClock? && step.t == t then ReadClock(t, now) else step
  }

  /** The same run with another clock reading for one call. */
  function Retimed(steps: seq<Step>, t: TaskId, now: nat): (r: seq<Step>)
    ensures |r| == |steps| && forall i :: 0 <= i < |r| ==> r[i] == RetimedStep(steps[i], t, now)
  {
    if steps == [] then [] else Retimed(steps[..|steps| - 1], t, now) + [RetimedStep(steps[|steps| - 1], t, now)]
  }

  function RetimedState(s: State, t: TaskId, now: nat): State {
    if t in s.tasks then s.(tasks := s.tasks[t := s.tasks[t].(now := now)]) else s
  }

  /** The call is on its way to lose the exchange after loading `v`, or has lost it. */
  ghost predicate Losing(s: State, t: TaskId, v: nat) {
    t in s.tasks ==>
      && (s.tasks[t].HasLast? ==> s.tasks[t].last == v)
      && (s.tasks[t].Returned? ==> s.tasks[t] == Returned(true, s.tasks[t].now, v) && Lost(s, t))
  }

  lemma LosingBefore(s: State, step: Step, t: TaskId, v: nat)
    requires Recorded(s) && Enabled(s, step) && Losing(Apply(s, step), t, v)
    ensures Losing(s, t, v)
    ensures step == Exchange(t) ==> s.tasks[t].last == v && Passes(s.budget, s.tasks[t].now, v) && s.writes[|s.writes| - 1] != v
  {
    var s' := Apply(s, step);
    if t in s'.tasks && s'.tasks[t].Returned? {
      var k :| 0 <= k < |s'.losses| && s'.losses[k].task == t;
      if step.t != t {
        assert k < |s.losses| && s.losses[k].task == t;
      }
    }
  }

  lemma OtherStepRetimed(s: State, step: Step, t: TaskId, now: nat)
    requires Enabled(s, step) && step.t != t
    ensures Enabled(RetimedState(s, t, now), step)
    ensures Apply(RetimedState(s, t, now), step) == RetimedState(Apply(s, step), t, now)
  {
    if t in s.tasks {
      var p, q := s.tasks[t].(now := now), Apply(s, step).tasks[step.t];
      assert s.tasks[t := p][step.t := q] == s.tasks[step.t := q][t := p];
    }
  }

  lemma OwnReadRetimed(s: State, t: TaskId, read: nat, now: nat)
    requires Enabled(s, ReadClock(t, read)) && now < U64_MAX
    ensures Enabled(RetimedState(s, t, now), ReadClock(t, now))
    ensures Apply(RetimedState(s, t, now), ReadClock(t, now)) == RetimedState(Apply(s, ReadClock(t, read)), t, now)
  {
  }

  lemma OwnLoadRetimed(s: State, t: TaskId, age: nat, now: nat)
    requires Enabled(s, Load(t, age))
    ensures Enabled(RetimedState(s, t, now), Load(t, age))
    ensures Apply(RetimedState(s, t, now), Load(t, age)) == RetimedState(Apply(s, Load(t, age)), t, now)
  {
  }

  /** A losing call does not notice another clock reading that passes the test. */
  lemma RetimedApply(s: State, step: Step, t: TaskId, v: nat, now: nat)
    requires Enabled(s, step) && now < U64_MAX && Passes(s.budget, now, v)
    requires step == Exchange(t) ==> s.tasks[t].last == v && Passes(s.budget, s.tasks[t].now, v) && s.writes[|s.writes| - 1] != v
    ensures Enabled(RetimedState(s, t, now), RetimedStep(step, t, now))
    ensures Apply(RetimedState(s, t, now), RetimedStep(step, t, now)) == RetimedState(Apply(s, step), t, now)
  {
    if step.t != t {
      OtherStepRetimed(s, step, t, now);
    } else {
      match step
      case ReadClock(_, read) => OwnReadRetimed(s, t, read, now);
      case Load(_, age) => OwnLoadRetimed(s, t, age, now);
      case Exchange(_) =>
    }
  }

  lemma ReachableNext(s: State, budget: nat, steps: seq<Step>, step: Step)
    requires Reachable(s, budget, steps) && Enabled(s, step)
    ensures Reachable(Apply(s, step), budget, steps + [step])
  {
    assert (steps + [step])[..|steps|] == steps;
  }

  /** The last step of a run, and the state before it. */
  lemma LastStep(s: State, budget: nat, steps: seq<Step>) returns (before: State)
    requires Reachable(s, budget, steps) && steps != []
    ensures Reachable(before, budget, steps[..|steps| - 1]) && Enabled(before, steps[|steps| - 1])
    ensures s == Apply(before, steps[|steps| - 1])
  {
    var n := |steps| - 1;
    before :| Reachable(before, budget, steps[..n]) && Enabled(before, steps[n]) && s == Apply(before, steps[n]);
  }

  lemma {:induction false} BudgetIsFixed(s: State, budget: nat, steps: seq<Step>)
    requires Reachable(s, budget, steps)
    ensures s.budget == budget
    decreases |steps|
  {
    if steps != [] {
      var before := LastStep(s, budget, steps);
      BudgetIsFixed(before, budget, steps[..|steps| - 1]);
    }
  }

  lemma {:induction false} RetimedRun(s: State, budget: nat, steps: seq<Step>, t: TaskId, v: nat, now: nat)
    requires Reachable(s, budget, steps) && Losing(s, t, v)
    requires now < U64_MAX && Passes(budget, now, v)
    ensures Reachable(RetimedState(s, t, now), budget, Retimed(steps, t, now))
    decreases |steps|
  {
    if steps != [] {
      var n := |steps| - 1;
      var before := LastStep(s, budget, steps);
      BudgetIsFixed(before, budget, steps[..n]);
      ReachableRecorded(before, budget, steps[..n]);
      LosingBefore(before, steps[n], t, v);
      RetimedRun(before, budget, steps[..n], t, v, now);
      RetimedApply(before, steps[n], t, v, now);
      ReachableNext(RetimedState(before, t, now), budget, Retimed(steps[..n], t, now), RetimedStep(steps[n], t, now));
    }
  }

  /** A run with a lost exchange and one with the same schedule that breaks the promise: the
      lost call reads the clock value that its winner read. */
  lemma LossBreaksPromise(s: State, budget: nat, steps: seq<Step>) returns (run: seq<Step>, s': State)
    requires budget > 0 && Reachable(s, budget, steps) && s.losses != []
    ensures SameSchedule(steps, run) && Reachable(s', budget, run) && !OneEventPerWindow(s')
  {
    ReachableInv(s, budget, steps);
    ReachableRecorded(s, budget, steps);
    var t, v := s.losses[0].task, s.losses[0].loaded;
    LoserHasOneWinner(s, budget, steps, 0);
    var w :| 0 <= w < |s.wins| && s.wins[w].from == v;
    var u, now := s.wins[w].task, s.wins[w].to;
    assert s.tasks[u] == Returned(true, now, v) && TaskInv(budget, s.writes, s.tasks[u]);
    assert Lost(s, t);
    RetimedRun(s, budget, steps, t, v, now);
    run, s' := Retimed(steps, t, now), RetimedState(s, t, now);
    assert Emitted(s', t) && Emitted(s', u) && s'.tasks[t].now == s'.tasks[u].now;
  }

  /** A schedule keeps the promise under all clock readings if and only if none of its
      exchanges is lost under any. */
  lemma ScheduleKeepsPromiseIff(budget: nat, schedule: seq<Step>)
    requires budget > 0
    ensures KeepsPromise(budget, schedule) <==> NeverLoses(budget, schedule)
  {
    if NeverLoses(budget, schedule) {
      forall run, s | Meets(budget, schedule, run, s) ensures OneEventPerWindow(s) { NoLossKeepsPromise(s, budget, run); }
    }
    if KeepsPromise(budget, schedule) {
      forall run, s | Meets(budget, schedule, run, s) ensures s.losses == [] {
        if s.losses != [] {
          var run', s' := LossBreaksPromise(s, budget, run);
          SameScheduleTrans(schedule[..|run|], run, run');
          assert Meets(budget, schedule, run', s');
        }
      }
    }
  }

  lemma SameScheduleTrans(a: seq<Step>, b: seq<Step>, c: seq<Step>)
    requires SameSchedule(a, b) && SameSchedule(b, c)
    ensures SameSchedule(a, c)
  {
    forall i | 0 <= i < |a| ensures SameStep(a[i], c[i]) {
      assert SameStep(a[i], b[i]) && SameStep(b[i], c[i]);
    }
  }

  // ---------------------------------------------------------------------------
  // What a schedule alone tells
  // ---------------------------------------------------------------------------

  /** The exchanges among the first `n` steps. */
  function Exchanges(schedule: seq<Step>, n: nat): nat
    requires n <= |schedule|
  {
    if n == 0 then 0 else Exchanges(schedule, n - 1) + if schedule[n - 1].Exchange? then 1 else 0
  }

  /** The step at `p` is a load of this call. */
  predicate Loads(schedule: seq<Step>, p: nat, t: TaskId) {
    p < |schedule| && schedule[p].Load? && schedule[p].t == t
  }

  /** Every call that gets to its exchange loaded the newest value, and no other call made
      its exchange in between: a condition on the schedule that no clock reading enters. */
  ghost predicate Isolated(schedule: seq<Step>) {
    forall p, e :: 0 <= p < e < |schedule| && schedule[e].Exchange? && Loads(schedule, p, schedule[e].t)
      ==> schedule[p].age == 0 && Exchanges(schedule, p) == Exchanges(schedule, e)
  }

  lemma {:induction false} ExchangesGrow(schedule: seq<Step>, m: nat, n: nat)
    requires m <= n <= |schedule|
    ensures Exchanges(schedule, m) <= Exchanges(schedule, n)
    decreases n
  {
    if m < n { ExchangesGrow(schedule, m, n - 1); }
  }

  lemma {:induction false} ExchangesAgree(schedule: seq<Step>, run: seq<Step>, n: nat)
    requires n <= |run| <= |schedule| && SameSchedule(schedule[..|run|], run)
    ensures Exchanges(schedule, n) == Exchanges(run, n)
  {
    if n > 0 {
      ExchangesAgree(schedule, run, n - 1);
      assert SameStep(schedule[..|run|][n - 1], run[n - 1]);
    }
  }

  lemma IsolatedRunOf(schedule: seq<Step>, run: seq<Step>)
    requires Isolated(schedule) && |run| <= |schedule| && SameSchedule(schedule[..|run|], run)
    ensures Isolated(run)
  {
    forall p, e | 0 <= p < e < |run| && run[e].Exchange? && Loads(run, p, run[e].t)
      ensures run[p].age == 0 && Exchanges(run, p) == Exchanges(run, e)
    {
      assert SameStep(schedule[..|run|][p], run[p]) && SameStep(schedule[..|run|][e], run[e]);
      assert Loads(schedule, p, schedule[e].t);
      ExchangesAgree(schedule, run, p);
      ExchangesAgree(schedule, run, e);
    }
  }

  /** A call between load and exchange: if its load was fresh and nothing was exchanged
      since, it still holds the newest value. */
  ghost predicate HoldsNewest(s: State, run: seq<Step>, n: nat, t: TaskId)
    requires n <= |run| && t in s.tasks && s.tasks[t].HasLast? && |s.writes| > 0
  {
    exists p :: 0 <= p < n && Loads(run, p, t)
      && (run[p].age == 0 && Exchanges(run, p) == Exchanges(run, n) ==> s.tasks[t].last == s.writes[|s.writes| - 1])
  }

  ghost predicate Undisturbed(s: State, run: seq<Step>, n: nat)
    requires n <= |run|
  {
    && s.losses == [] && |s.writes| > 0
    && forall t :: t in s.tasks && s.tasks[t].HasLast? ==> HoldsNewest(s, run, n, t)
  }

  lemma StepUndisturbed(before: State, run: seq<Step>, n: nat)
    requires n < |run| && Isolated(run) && Undisturbed(before, run, n) && Enabled(before, run[n])
    ensures Undisturbed(Apply(before, run[n]), run, n + 1)
  {
    var step, after := run[n], Apply(before, run[n]);
    if step.Exchange? {
      assert HoldsNewest(before, run, n, step.t);
      var p :| 0 <= p < n && Loads(run, p, step.t)
        && (run[p].age == 0 && Exchanges(run, p) == Exchanges(run, n) ==> before.tasks[step.t].last == before.writes[|before.writes| - 1]);
    }
    forall t | t in after.tasks && after.tasks[t].HasLast? ensures HoldsNewest(after, run, n + 1, t) {
      if step.Load? && step.t == t {
        assert Loads(run, n, t);
      } else {
        assert HoldsNewest(before, run, n, t);
        var p :| 0 <= p < n && Loads(run, p, t)
          && (run[p].age == 0 && Exchanges(run, p) == Exchanges(run, n) ==> before.tasks[t].last == before.writes[|before.writes| - 1]);
        ExchangesGrow(run, p, n);
      }
    }
  }

  lemma {:induction false} IsolatedRun(s: State, budget: nat, run: seq<Step>, n: nat)
    requires n <= |run| && Isolated(run) && Reachable(s, budget, run[..n])
    ensures Undisturbed(s, run, n)
    decreases n
  {
    if n > 0 {
      var before := LastStep(s, budget, run[..n]);
      assert run[..n][..n - 1] == run[..n - 1];
      IsolatedRun(before, budget, run, n - 1);
      StepUndisturbed(before, run, n - 1);
    }
  }

  /** An isolated schedule keeps the promise under all clock readings. */
  lemma IsolatedKeepsPromise(budget: nat, schedule: seq<Step>)
    requires budget > 0 && Isolated(schedule)
    ensures KeepsPromise(budget, schedule)
  {
    forall run, s | Meets(budget, schedule, run, s) ensures s.losses == [] {
      IsolatedRunOf(schedule, run);
      assert run[..|run|] == run;
      IsolatedRun(s, budget, run, |run|);
    }
    ScheduleKeepsPromiseIff(budget, schedule);
  }

  /** The first position from `n` on at which the call makes its exchange, or the end. */
  function ExchangeAt(schedule: seq<Step>, t: TaskId, n: nat): (p: nat)
    requires n <= |schedule|
    ensures n <= p <= |schedule|
    ensures p < |schedule| ==> schedule[p] == Exchange(t)
    ensures forall q :: n <= q < p ==> schedule[q] != Exchange(t)
    decreases |schedule| - n
  {
    if n == |schedule| || schedule[n] == Exchange(t) then n else ExchangeAt(schedule, t, n + 1)
  }

  /** A reading so late that the call passes the test, whatever was installed before its exchange. */
  function LateReading(budget: nat, schedule: seq<Step>, t: TaskId): nat {
    Times(ExchangeAt(schedule, t, 0) + 1, budget)
  }

  /** The schedule with late clock readings. */
  function Late(budget: nat, schedule: seq<Step>, n: nat): (run: seq<Step>)
    requires n <= |schedule|
    ensures |run| == n
    ensures forall i :: 0 <= i < n ==>
      run[i] == if schedule[i].ReadClock? then ReadClock(schedule[i].t, LateReading(budget, schedule, schedule[i].t)) else schedule[i]
  {
    if n == 0 then []
    else
      var step := schedule[n - 1];
      Late(budget, schedule, n - 1) + [if step.ReadClock? then ReadClock(step.t, LateReading(budget, schedule, step.t)) else step]
  }

  /** What a call has behind it after `n` steps, by its phase. */
  ghost predicate Progress(s: State, schedule: seq<Step>, n: nat, t: TaskId)
    requires n <= |schedule|
  {
    && (t !in s.tasks || !s.tasks[t].Returned? ==> forall q :: 0 <= q < n ==> schedule[q] != Exchange(t))
    && (t !in s.tasks || s.tasks[t].HasNow? ==> forall q :: 0 <= q < n ==> !Loads(schedule, q, t))
  }

  /** The late run `l` beside a run `s` of the same schedule: the same calls in the same phases,
      every exchange won so far, and each loaded value known by its place in the modification order. */
  ghost predicate Ahead(s: State, l: State, budget: nat, schedule: seq<Step>, n: nat)
    requires n <= |schedule|
  {
    && l.budget == budget
    && |s.writes| <= |l.writes| == 1 + Exchanges(schedule, n)
    && l.writes[0] == U64_MAX && (forall i :: 0 < i < |l.writes| ==> l.writes[i] <= Times(n, budget))
    && s.tasks.Keys == l.tasks.Keys
    && (forall t :: t in s.tasks ==> SamePhase(s.tasks[t], l.tasks[t]))
    && AllProgress(s, schedule, n)
    && (forall t :: t in l.tasks && !l.tasks[t].Returned? ==> l.tasks[t].now == LateReading(budget, schedule, t))
    && (forall t, q :: t in l.tasks && l.tasks[t].HasLast? && 0 <= q < n && Loads(schedule, q, t) ==> LoadedAt(l, schedule, t, q))
  }

  predicate SamePhase(a: Phase, b: Phase) {
    (a.HasNow? <==> b.HasNow?) && (a.HasLast? <==> b.HasLast?) && (a.Returned? <==> b.Returned?)
  }

  /** The value the call holds is the one its load at `q` found, counted from the sentinel. */
  ghost predicate LoadedAt(l: State, schedule: seq<Step>, t: TaskId, q: nat)
    requires q < |schedule| && Loads(schedule, q, t) && t in l.tasks && l.tasks[t].HasLast?
  {
    var i := Exchanges(schedule, q) - schedule[q].age;
    0 <= i < |l.writes| && l.tasks[t].last == l.writes[i]
  }

  ghost predicate AllProgress(s: State, schedule: seq<Step>, n: nat)
    requires n <= |schedule|
  {
    forall t :: Progress(s, schedule, n, t)
  }

  /** A step of the schedule's kind keeps track of what each call has behind it. */
  lemma ProgressAll(s: State, s': State, schedule: seq<Step>, n: nat)
    requires n < |schedule| && AllProgress(s, schedule, n)
    requires forall t :: t != schedule[n].t ==> (t in s'.tasks <==> t in s.tasks) && (t in s.tasks ==> s'.tasks[t] == s.tasks[t])
    requires schedule[n].t in s'.tasks
    requires schedule[n].ReadClock? ==> schedule[n].t !in s.tasks
    requires schedule[n].Load? ==> schedule[n].t in s.tasks && s.tasks[schedule[n].t].HasNow? && s'.tasks[schedule[n].t].HasLast?
    requires schedule[n].Exchange? ==> s'.tasks[schedule[n].t].Returned?
    ensures AllProgress(s', schedule, n + 1)
  {
    var m := n + 1;
    forall t ensures Progress(s', schedule, m, t) { assert Progress(s, schedule, n, t); }
  }

  lemma ReadStaysAhead(s: State, l: State, budget: nat, schedule: seq<Step>, n: nat, now: nat)
    requires n < |schedule| && schedule[n].ReadClock? && Ahead(s, l, budget, schedule, n)
    requires Times(|schedule| + 1, budget) < U64_MAX && Enabled(s, ReadClock(schedule[n].t, now))
    ensures var late := ReadClock(schedule[n].t, LateReading(budget, schedule, schedule[n].t));
      Enabled(l, late) && Ahead(Apply(s, ReadClock(schedule[n].t, now)), Apply(l, late), budget, schedule, n + 1)
  {
    var t := schedule[n].t;
    TimesMonotone(ExchangeAt(schedule, t, 0) + 1, |schedule| + 1, budget);
    assert Times(n + 1, budget) == Times(n, budget) + budget;
    var s', l' := Apply(s, ReadClock(t, now)), Apply(l, ReadClock(t, LateReading(budget, schedule, t)));
    ProgressAll(s, s', schedule, n);
    forall u, q | u in l'.tasks && l'.tasks[u].HasLast? && 0 <= q < n + 1 && Loads(schedule, q, u)
      ensures LoadedAt(l', schedule, u, q)
    {
      assert LoadedAt(l, schedule, u, q);
    }
  }

  lemma LoadStaysAhead(s: State, l: State, budget: nat, schedule: seq<Step>, n: nat)
    requires n < |schedule| && schedule[n].Load? && Ahead(s, l, budget, schedule, n) && Enabled(s, schedule[n])
    ensures Enabled(l, schedule[n]) && Ahead(Apply(s, schedule[n]), Apply(l, schedule[n]), budget, schedule, n + 1)
  {
    var t, s', l' := schedule[n].t, Apply(s, schedule[n]), Apply(l, schedule[n]);
    assert Times(n + 1, budget) == Times(n, budget) + budget;
    assert Progress(s, schedule, n, t);
    ProgressAll(s, s', schedule, n);
    forall u, q | u in l'.tasks && l'.tasks[u].HasLast? && 0 <= q < n + 1 && Loads(schedule, q, u)
      ensures LoadedAt(l', schedule, u, q)
    {
      if u != t { assert LoadedAt(l, schedule, u, q); }
    }
  }

  /** In the late run the call that makes its exchange passes the test. */
  lemma LatePasses(s: State, l: State, budget: nat, schedule: seq<Step>, n: nat)
    requires n < |schedule| && schedule[n].Exchange? && Ahead(s, l, budget, schedule, n) && Enabled(s, schedule[n])
    requires Inv(l)
    ensures Enabled(l, schedule[n]) && l.tasks[schedule[n].t].now == Times(n + 1, budget)
    ensures Passes(budget, l.tasks[schedule[n].t].now, l.tasks[schedule[n].t].last)
  {
    var t := schedule[n].t;
    assert Progress(s, schedule, n, t);
    assert ExchangeAt(schedule, t, 0) == n;
    assert TaskInv(budget, l.writes, l.tasks[t]);
    assert Times(n + 1, budget) == Times(n, budget) + budget;
  }

  /** Since it was not lost, the exchange found the newest value. */
  lemma WinHoldsNewest(s: State, l: State, budget: nat, schedule: seq<Step>, n: nat)
    requires n < |schedule| && schedule[n].Exchange? && Ahead(s, l, budget, schedule, n) && Enabled(s, schedule[n])
    requires Inv(l) && Enabled(l, schedule[n]) && Apply(l, schedule[n]).losses == []
    ensures l.tasks[schedule[n].t].last == l.writes[|l.writes| - 1]
    ensures Apply(l, schedule[n]).writes == l.writes + [Times(n + 1, budget)]
  {
    LatePasses(s, l, budget, schedule, n);
  }

  lemma WinStaysAhead(s: State, l: State, budget: nat, schedule: seq<Step>, n: nat)
    requires n < |schedule| && schedule[n].Exchange? && Ahead(s, l, budget, schedule, n) && Enabled(s, schedule[n])
    requires Enabled(l, schedule[n]) && Apply(l, schedule[n]).writes == l.writes + [Times(n + 1, budget)]
    ensures Ahead(Apply(s, schedule[n]), Apply(l, schedule[n]), budget, schedule, n + 1)
  {
    var t, s', l' := schedule[n].t, Apply(s, schedule[n]), Apply(l, schedule[n]);
    assert Times(n + 1, budget) == Times(n, budget) + budget;
    ProgressAll(s, s', schedule, n);
    forall u, q | u in l'.tasks && l'.tasks[u].HasLast? && 0 <= q < n + 1 && Loads(schedule, q, u)
      ensures LoadedAt(l', schedule, u, q)
    {
      assert LoadedAt(l, schedule, u, q);
    }
  }

  /** `run` has the schedule's interleaving as far as it goes. */
  ghost predicate Follows(schedule: seq<Step>, run: seq<Step>) {
    |run| <= |schedule| && forall i :: 0 <= i < |run| ==> SameStep(schedule[i], run[i])
  }

  lemma LateMeets(budget: nat, schedule: seq<Step>, n: nat, l: State)
    requires n <= |schedule| && Reachable(l, budget, Late(budget, schedule, n))
    ensures Meets(budget, schedule, Late(budget, schedule, n), l)
  {
  }

  /** In a schedule that never loses, the late run stays ahead of any run. */
  lemma {:induction false} LateRun(s: State, budget: nat, run: seq<Step>, schedule: seq<Step>, n: nat) returns (l: State)
    requires budget > 0 && Times(|schedule| + 1, budget) < U64_MAX && NeverLoses(budget, schedule)
    requires Follows(schedule, run) && n <= |run| && Reachable(s, budget, run[..n])
    ensures Reachable(l, budget, Late(budget, schedule, n)) && Ahead(s, l, budget, schedule, n)
    decreases n
  {
    if n == 0 {
      l := Init(budget);
    } else {
      var before := LastStep(s, budget, run[..n]);
      assert run[..n][..n - 1] == run[..n - 1];
      var l0 := LateRun(before, budget, run, schedule, n - 1);
      l := LateNext(before, s, l0, budget, run, schedule, n - 1);
    }
  }

  lemma LateNext(before: State, s: State, l0: State, budget: nat, run: seq<Step>, schedule: seq<Step>, n: nat) returns (l: State)
    requires budget > 0 && Times(|schedule| + 1, budget) < U64_MAX && NeverLoses(budget, schedule)
    requires Follows(schedule, run) && n < |run| && Enabled(before, run[n]) && s == Apply(before, run[n])
    requires Reachable(l0, budget, Late(budget, schedule, n)) && Ahead(before, l0, budget, schedule, n)
    ensures Reachable(l, budget, Late(budget, schedule, n + 1)) && Ahead(s, l, budget, schedule, n + 1)
  {
    var step := schedule[n];
    assert SameStep(step, run[n]);
    ReachableInv(l0, budget, Late(budget, schedule, n));
    var late := if step.ReadClock? then ReadClock(step.t, LateReading(budget, schedule, step.t)) else step;
    match step {
      case ReadClock(t, _) => ReadStaysAhead(before, l0, budget, schedule, n, run[n].now);
      case Load(_, _) => LoadStaysAhead(before, l0, budget, schedule, n);
      case Exchange(_) => LatePasses(before, l0, budget, schedule, n);
    }
    l := Apply(l0, late);
    ReachableNext(l0, budget, Late(budget, schedule, n), late);
    LateMeets(budget, schedule, n + 1, l);
    if step.Exchange? {
      WinHoldsNewest(before, l0, budget, schedule, n);
      WinStaysAhead(before, l0, budget, schedule, n);
    }
  }

  lemma {:induction false} StateAt(s: State, budget: nat, run: seq<Step>, n: nat) returns (at: State)
    requires Reachable(s, budget, run) && n < |run|
    ensures Reachable(at, budget, run[..n]) && Enabled(at, run[n])
    decreases |run|
  {
    var before := LastStep(s, budget, run);
    var m := |run| - 1;
    if n == m {
      at := before;
    } else {
      at := StateAt(before, budget, run[..m], n);
      assert run[..m][..n] == run[..n];
    }
  }

  lemma SameNewest(l: State, i: nat, j: nat)
    requires Inv(l) && i < |l.writes| && j < |l.writes| && l.writes[i] == l.writes[j]
    ensures i == j
  {
    if i < j { WritesAreDistinct(l.budget, l.writes, i, j); }
    if j < i { WritesAreDistinct(l.budget, l.writes, j, i); }
  }

  /** The call that exchanges at `e` without losing holds the newest value, so its load at `p`
      was fresh and no exchange came in between. */
  lemma WinnerIsIsolated(s: State, l: State, budget: nat, schedule: seq<Step>, p: nat, e: nat)
    requires p < e < |schedule| && schedule[e].Exchange? && Loads(schedule, p, schedule[e].t)
    requires Ahead(s, l, budget, schedule, e) && Enabled(s, schedule[e]) && Inv(l)
    requires Enabled(l, schedule[e]) && Apply(l, schedule[e]).losses == []
    ensures schedule[p].age == 0 && Exchanges(schedule, p) == Exchanges(schedule, e)
  {
    WinHoldsNewest(s, l, budget, schedule, e);
    assert LoadedAt(l, schedule, schedule[e].t, p);
    SameNewest(l, Exchanges(schedule, p) - schedule[p].age, Exchanges(schedule, e));
    ExchangesGrow(schedule, p, e);
  }

  lemma LateExchangeWins(s: State, l: State, budget: nat, schedule: seq<Step>, n: nat)
    requires budget > 0 && NeverLoses(budget, schedule) && n < |schedule| && schedule[n].Exchange?
    requires Reachable(l, budget, Late(budget, schedule, n)) && Ahead(s, l, budget, schedule, n) && Enabled(s, schedule[n])
    ensures Inv(l) && Enabled(l, schedule[n]) && Apply(l, schedule[n]).losses == []
  {
    ReachableInv(l, budget, Late(budget, schedule, n));
    LatePasses(s, l, budget, schedule, n);
    ReachableNext(l, budget, Late(budget, schedule, n), schedule[n]);
    LateMeets(budget, schedule, n + 1, Apply(l, schedule[n]));
  }

  lemma NeverLosesIsolates(s: State, budget: nat, run: seq<Step>, schedule: seq<Step>, p: nat, e: nat)
    requires budget > 0 && Times(|schedule| + 1, budget) < U64_MAX && NeverLoses(budget, schedule)
    requires |run| == |schedule| && Follows(schedule, run) && Reachable(s, budget, run)
    requires p < e < |schedule| && schedule[e].Exchange? && Loads(schedule, p, schedule[e].t)
    ensures schedule[p].age == 0 && Exchanges(schedule, p) == Exchanges(schedule, e)
  {
    var at := StateAt(s, budget, run, e);
    assert SameStep(schedule[e], run[e]);
    var l := LateRun(at, budget, run, schedule, e);
    LateExchangeWins(at, l, budget, schedule, e);
    WinnerIsIsolated(at, l, budget, schedule, p, e);
  }

  /** The schedule can run to its end under some clock readings. */
  ghost predicate Feasible(budget: nat, schedule: seq<Step>) {
    exists run, s :: |run| == |schedule| && Follows(schedule, run) && Reachable(s, budget, run)
  }

  /** The promise, decided by the schedule alone: where the clock's range holds a budget for every
      step, a feasible schedule has at most one event per window under all clock readings if and
      only if every call that gets to its exchange loaded the newest value and no other call
      made its exchange in between. */
  lemma PromiseIffIsolated(budget: nat, schedule: seq<Step>)
    requires budget > 0 && (|schedule| + 1) * budget < U64_MAX && Feasible(budget, schedule)
    ensures KeepsPromise(budget, schedule) <==> Isolated(schedule)
  {
    TimesIsProduct(|schedule| + 1, budget);
    if Isolated(schedule) { IsolatedKeepsPromise(budget, schedule); }
    if KeepsPromise(budget, schedule) {
      ScheduleKeepsPromiseIff(budget, schedule);
      var run, s :| |run| == |schedule| && Follows(schedule, run) && Reachable(s, budget, run);
      forall p, e | 0 <= p < e < |schedule| && schedule[e].Exchange? && Loads(schedule, p, schedule[e].t)
        ensures schedule[p].age == 0 && Exchanges(schedule, p) == Exchanges(schedule, e)
      {
        NeverLosesIsolates(s, budget, run, schedule, p, e);
      }
    }
  }

  // ---------------------------------------------------------------------------
  // Runs
  // ---------------------------------------------------------------------------

  /** Two calls between their load and their exchange, both with the sentinel loaded. */
  lemma TwoLoads(budget: nat, first: nat, second: nat) returns (s: State, steps: seq<Step>)
    requires first < U64_MAX && second < U64_MAX
    ensures Reachable(s, budget, steps)
    ensures s == Init(budget).(tasks := map[1 := HasLast(first, U64_MAX), 2 := HasLast(second, U64_MAX)])
  {
    steps := [];
    s := Init(budget);
    s, steps := Extend(s, budget, steps, ReadClock(1, first));
    s, steps := Extend(s, budget, steps, ReadClock(2, second));
    s, steps := Extend(s, budget, steps, Load(1, 0));
    s, steps := Extend(s, budget, steps, Load(2, 0));
  }

  lemma FirstWins(budget: nat, first: nat, second: nat) returns (s: State, steps: seq<Step>)
    requires first < U64_MAX && second < U64_MAX
    ensures Reachable(s, budget, steps)
    ensures s == State(budget, [U64_MAX, first], map[1 := Returned(true, first, U64_MAX), 2 := HasLast(second, U64_MAX)],
                       [Win(1, U64_MAX, first)], [])
  {
    s, steps := TwoLoads(budget, first, second);
    s, steps := Extend(s, budget, steps, Exchange(1));
  }

  /** Two calls whose spans overlap: the second loses. */
  lemma OverlappingCalls(budget: nat, first: nat, second: nat) returns (s: State, steps: seq<Step>)
    requires first < U64_MAX && second < U64_MAX
    ensures Reachable(s, budget, steps) && s.budget == budget
    ensures s.tasks == map[1 := Returned(true, first, U64_MAX), 2 := Returned(true, second, U64_MAX)]
    ensures s.wins == [Win(1, U64_MAX, first)] && s.losses == [Loss(2, U64_MAX)]
  {
    s, steps := FirstWins(budget, first, second);
    s, steps := Extend(s, budget, steps, Exchange(2));
  }

  /** "At most one event per frame window" fails: two tasks may both emit at the same time. */
  lemma TwoTasksEmitInOneWindow(budget: nat) returns (s: State, steps: seq<Step>)
    requires budget > 0
    ensures Reachable(s, budget, steps) && !OneEventPerWindow(s)
    ensures Emitted(s, 1) && Emitted(s, 2) && s.tasks[1].now == s.tasks[2].now
  {
    s, steps := OverlappingCalls(budget, 0, 0);
    assert !Apart(budget, s.tasks[1].now, s.tasks[2].now);
  }

  /** A lost exchange alone does not break the promise: here the two clock readings are apart. */
  lemma LossCanBeHarmless(budget: nat) returns (s: State, steps: seq<Step>)
    requires 0 < budget < U64_MAX
    ensures Reachable(s, budget, steps) && s.losses != [] && OneEventPerWindow(s)
  {
    s, steps := OverlappingCalls(budget, 0, budget);
  }

  lemma Extend(s: State, budget: nat, steps: seq<Step>, step: Step) returns (s': State, steps': seq<Step>)
    requires Reachable(s, budget, steps) && Enabled(s, step)
    ensures s' == Apply(s, step) && steps' == steps + [step]
    ensures Reachable(s', budget, steps')
  {
    s', steps' := Apply(s, step), steps + [step];
    assert steps'[..|steps|] == steps;
  }

  // ---------------------------------------------------------------------------
  // Uninterrupted calls
  // ---------------------------------------------------------------------------

  class IpcRateLimiter {
    const frameBudgetMs: nat
    var lastEmitMs: nat

    constructor (frameBudgetMs: nat)
      ensures this.frameBudgetMs == frameBudgetMs && lastEmitMs == 0xFFFF_FFFF_FFFF_FFFF
    {
      this.frameBudgetMs := frameBudgetMs;
      lastEmitMs := U64_MAX;
    }

    /** `now` is the elapsed time read from the clock. */
    method TryEmit(now: nat) returns (emitted: bool)
      modifies this
      ensures emitted == Passes(frameBudgetMs, now, old(lastEmitMs))
      ensures emitted <==> old(lastEmitMs) == 0xFFFF_FFFF_FFFF_FFFF || frameBudgetMs == 0 || now >= old(lastEmitMs) + frameBudgetMs
      ensures lastEmitMs == if emitted then now else old(lastEmitMs)
    {
      var last := lastEmitMs;
      var elapsed := SaturatingSub(now, last);
      if last == U64_MAX || elapsed >= frameBudgetMs {
        if lastEmitMs == last {
          lastEmitMs := now;
        }
        emitted := true;
      } else {
        emitted := false;
      }
    }

    method ForceEmit(now: nat)
      modifies this
      ensures lastEmitMs == now
    {
      lastEmitMs := now;
    }
  }

  /** A call that no other task interrupts, and whose load is fresh, is what `TryEmit` computes. */
  lemma UninterruptedCall(s: State, t: TaskId, now: nat)
    requires |s.writes| > 0 && t !in s.tasks && now < U64_MAX
    ensures var last := s.writes[|s.writes| - 1];
      var s1 := Apply(s, ReadClock(t, now));
      var s2 := Apply(s1, Load(t, 0));
      var s3 := Apply(s2, Exchange(t));
      && s3.tasks[t].emitted == Passes(s.budget, now, last)
      && s3.writes[|s3.writes| - 1] == (if Passes(s.budget, now, last) then now else last)
      && s3.losses == s.losses
  {
  }
}
