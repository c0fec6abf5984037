/**
 Background saves and shutdown: clones of the effect executor share one locked
 list of save handles; any number of saves, completions and shutdowns interleave.
 */
module SaveProtocol {

  type SaveId = nat
  type CallerId = nat

  /** Where a call of `save_session` is: its task runs, its handle is in the shared list, it returned. */
  datatype Save = Spawned | Recorded | Returned

  /** Where a call of `shutdown` is.  `owed` are the saves whose call had returned when it began. */
  datatype Shutdown =
    | Begun(owed: set<SaveId>)
    | Awaiting(owed: set<SaveId>, handles: seq<SaveId>)
    | Done(owed: set<SaveId>)

  datatype State = State(
    saves: map<SaveId, Save>,
    finished: set<SaveId>,
    list: seq<SaveId>,
    shutdowns: map<CallerId, Shutdown>,
    awaited: set<SaveId>)

  const INITIAL := State(map[], {}, [], map[], {})

  /** `Record` is the locked section of a save: it drops handles seen finished and pushes its
      own; tasks may finish while it looks, so `dropped` is some set of finished saves. */
  datatype Step =
    | Spawn(id: SaveId)
    | Record(id: SaveId, dropped: set<SaveId>)
    | Return(id: SaveId)
    | Finish(id: SaveId)
    | Begin(c: CallerId)
    | Take(c: CallerId)
    | Await(c: CallerId)
    | End(c: CallerId)

  predicate Enabled(s: State, step: Step) {
    match step
    case Spawn(id) => id !in s.saves
    case Record(id, dropped) => id in s.saves && s.saves[id].Spawned? && dropped <= s.finished
    case Return(id) => id in s.saves && s.saves[id].Recorded?
    case Finish(id) => id in s.saves
    case Begin(c) => c !in s.shutdowns
    case Take(c) => c in s.shutdowns && s.shutdowns[c].Begun?
    case Await(c) =>
      && c in s.shutdowns && s.shutdowns[c].Awaiting?
      && s.shutdowns[c].handles != [] && s.shutdowns[c].handles[0] in s.finished
    case End(c) => c in s.shutdowns && s.shutdowns[c].Awaiting? && s.shutdowns[c].handles == []
  }

  /** The handles of a list that are not among those dropped. */
  function Without(list: seq<SaveId>, dropped: set<SaveId>): seq<SaveId> {
    if list == [] then []
    else if list[0] in dropped then Without(list[1..], dropped)
    else [list[0]] + Without(list[1..], dropped)
  }

  function ReturnedSaves(s: State): set<SaveId> {
    set id | id in s.saves && s.saves[id].Returned?
  }

  function Apply(s: State, step: Step): State
    requires Enabled(s, step)
  {
    match step
    case Spawn(id) => s.(saves := s.saves[id := Spawned])
    case Record(id, dropped) => s.(saves := s.saves[id := Recorded], list := Without(s.list, dropped) + [id])
    case Return(id) => s.(saves := s.saves[id := Returned])
    case Finish(id) => s.(finished := s.finished + {id})
    case Begin(c) => s.(shutdowns := s.shutdowns[c := Begun(ReturnedSaves(s))])
    case Take(c) => s.(list := [], shutdowns := s.shutdowns[c := Awaiting(s.shutdowns[c].owed, s.list)])
    case Await(c) =>
      var handles := s.shutdowns[c].handles;
      s.(shutdowns := s.shutdowns[c := Awaiting(s.shutdowns[c].owed, handles[1..])],
         awaited := s.awaited + {handles[0]})
    case End(c) => s.(shutdowns := s.shutdowns[c := Done(s.shutdowns[c].owed)])
  }

  ghost predicate Reachable(s: State, steps: seq<Step>)
    decreases |steps|
  {
    if steps == [] then s == INITIAL
    else
      var n := |steps| - 1;
      exists before :: Reachable(before, steps[..n]) && Enabled(before, steps[n]) && s == Apply(before, steps[n])
  }

  // ---------------------------------------------------------------------------
  // No save is lost
  // ---------------------------------------------------------------------------

  /** A shutdown in progress holds the handle. */
  predicate Holds(s: State, c: CallerId, id: SaveId) {
    c in s.shutdowns && s.shutdowns[c].Awaiting? && id in s.shutdowns[c].handles
  }

  ghost predicate Held(s: State, id: SaveId) {
    exists c :: Holds(s, c, id)
  }

  /** Every unfinished save whose handle was recorded is in the list or held by a shutdown. */
  ghost predicate NoneLost(s: State) {
    forall id :: id in s.saves && !s.saves[id].Spawned? && id !in s.finished ==> id in s.list || Held(s, id)
  }

  /** A shutdown owes only returned saves, and once it took the list, each that is unfinished is held. */
  ghost predicate OwedHeld(s: State) {
    && (forall c, id :: c in s.shutdowns && id in s.shutdowns[c].owed ==> id in s.saves && s.saves[id].Returned?)
    && forall c, id :: c in s.shutdowns && !s.shutdowns[c].Begun? && id in s.shutdowns[c].owed && id !in s.finished
         ==> Held(s, id)
  }

  lemma {:induction false} WithoutKeeps(list: seq<SaveId>, dropped: set<SaveId>, id: SaveId)
    ensures id in Without(list, dropped) <==> id in list && id !in dropped
  {
    if list != [] { WithoutKeeps(list[1..], dropped, id); }
  }

  /** An unfinished handle that is held stays held. */
  lemma HeldStays(s: State, step: Step, id: SaveId)
    requires Enabled(s, step) && Held(s, id) && id !in s.finished
    ensures Held(Apply(s, step), id)
  {
    var c :| Holds(s, c, id);
    assert Holds(Apply(s, step), c, id);
  }

  /** What the list held, a take passes on. */
  lemma TakeHolds(s: State, c: CallerId, id: SaveId)
    requires Enabled(s, Take(c)) && id in s.list
    ensures Held(Apply(s, Take(c)), id)
  {
    assert Holds(Apply(s, Take(c)), c, id);
  }

  lemma StepLosesNone(s: State, step: Step)
    requires NoneLost(s) && Enabled(s, step)
    ensures NoneLost(Apply(s, step))
  {
    var s' := Apply(s, step);
    forall id | id in s'.saves && !s'.saves[id].Spawned? && id !in s'.finished
      ensures id in s'.list || Held(s', id)
    {
      if Held(s, id) {
        HeldStays(s, step, id);
      } else if step.Take? {
        TakeHolds(s, step.c, id);
      } else if step.Record? && step.id != id {
        WithoutKeeps(s.list, step.dropped, id);
      }
    }
  }

  lemma StepKeepsOwed(s: State, step: Step)
    requires NoneLost(s) && OwedHeld(s) && Enabled(s, step)
    ensures OwedHeld(Apply(s, step))
  {
    var s' := Apply(s, step);
    forall c, id | c in s'.shutdowns && !s'.shutdowns[c].Begun? && id in s'.shutdowns[c].owed && id !in s'.finished
      ensures Held(s', id)
    {
      assert id in s.shutdowns[c].owed;
      if Held(s, id) { HeldStays(s, step, id); } else { TakeHolds(s, c, id); }
    }
  }

  lemma {:induction false} ReachableLosesNone(s: State, steps: seq<Step>)
    requires Reachable(s, steps)
    ensures NoneLost(s) && OwedHeld(s)
    decreases |steps|
  {
    if steps != [] {
      var n := |steps| - 1;
      var before :| Reachable(before, steps[..n]) && Enabled(before, steps[n]) && s == Apply(before, steps[n]);
      ReachableLosesNone(before, steps[..n]);
      StepLosesNone(before, steps[n]);
      StepKeepsOwed(before, steps[n]);
    }
  }

  /** With a single shutdown, when it returns every save whose call had returned before it began is finished. */
  lemma SingleShutdownWaits(s: State, steps: seq<Step>, c: CallerId)
    requires Reachable(s, steps) && s.shutdowns.Keys == {c} && s.shutdowns[c].Done?
    ensures s.shutdowns[c].owed <= s.finished
  {
    ReachableLosesNone(s, steps);
    assert forall d, id :: !Holds(s, d, id);
  }

  // ---------------------------------------------------------------------------
  // Each handle is awaited once
  // ---------------------------------------------------------------------------

  ghost predicate NoRepeat(list: seq<SaveId>) {
    forall i, j :: 0 <= i < j < |list| ==> list[i] != list[j]
  }

  /** Every recorded handle is in at most one of: the list, one shutdown's handles, the awaited. */
  ghost predicate OnePlace(s: State) {
    && NoRepeat(s.list)
    && (forall c :: c in s.shutdowns && s.shutdowns[c].Awaiting? ==> NoRepeat(s.shutdowns[c].handles))
    && (forall id :: id in s.list ==> !Held(s, id) && id !in s.awaited)
    && (forall c, id :: Holds(s, c, id) ==> id !in s.awaited)
    && (forall c, d, id :: Holds(s, c, id) && Holds(s, d, id) ==> c == d)
  }

  /** Only handles of recorded saves are anywhere. */
  ghost predicate OnlyRecorded(s: State) {
    && (forall id :: id in s.list || id in s.awaited ==> id in s.saves && !s.saves[id].Spawned?)
    && forall c, id :: Holds(s, c, id) ==> id in s.saves && !s.saves[id].Spawned?
  }

  lemma {:induction false} WithoutNoRepeat(list: seq<SaveId>, dropped: set<SaveId>)
    requires NoRepeat(list)
    ensures NoRepeat(Without(list, dropped))
  {
    if list != [] {
      WithoutNoRepeat(list[1..], dropped);
      WithoutKeeps(list[1..], dropped, list[0]);
    }
  }

  /** A handle held after a step was held before by the same shutdown, or was in the list it took. */
  lemma HoldsBefore(s: State, step: Step, c: CallerId, id: SaveId)
    requires Enabled(s, step) && Holds(Apply(s, step), c, id)
    ensures Holds(s, c, id) || (step == Take(c) && id in s.list)
  {
  }

  lemma RecordKeepsOnePlace(s: State, id: SaveId, dropped: set<SaveId>)
    requires OnePlace(s) && OnlyRecorded(s) && Enabled(s, Record(id, dropped))
    ensures OnePlace(Apply(s, Record(id, dropped))) && OnlyRecorded(Apply(s, Record(id, dropped)))
  {
    var s' := Apply(s, Record(id, dropped));
    WithoutNoRepeat(s.list, dropped);
    forall x ensures x in Without(s.list, dropped) ==> x in s.list && x != id { WithoutKeeps(s.list, dropped, x); }
    forall c, x ensures Holds(s', c, x) <==> Holds(s, c, x) { }
    forall x | x in s'.list ensures !Held(s', x) && x !in s'.awaited { }
  }

  lemma TakeKeepsOnePlace(s: State, c: CallerId)
    requires OnePlace(s) && OnlyRecorded(s) && Enabled(s, Take(c))
    ensures OnePlace(Apply(s, Take(c))) && OnlyRecorded(Apply(s, Take(c)))
  {
    var s' := Apply(s, Take(c));
    forall d, id | Holds(s', d, id)
      ensures id !in s'.awaited && (d == c ==> id in s.list) && (d != c ==> Holds(s, d, id))
    {
      HoldsBefore(s, Take(c), d, id);
    }
  }

  lemma AwaitKeepsOnePlace(s: State, c: CallerId)
    requires OnePlace(s) && OnlyRecorded(s) && Enabled(s, Await(c))
    ensures OnePlace(Apply(s, Await(c))) && OnlyRecorded(Apply(s, Await(c)))
  {
    var s' := Apply(s, Await(c));
    var first := s.shutdowns[c].handles[0];
    assert Holds(s, c, first);
    forall d, id | Holds(s', d, id) ensures Holds(s, d, id) && id !in s'.awaited {
      HoldsBefore(s, Await(c), d, id);
    }
    forall id | id in s'.list ensures !Held(s', id) && id !in s'.awaited {
      assert !Held(s, id);
    }
  }

  lemma OtherStepsKeepOnePlace(s: State, step: Step)
    requires OnePlace(s) && OnlyRecorded(s) && Enabled(s, step)
    requires !step.Record? && !step.Take? && !step.Await?
    ensures OnePlace(Apply(s, step)) && OnlyRecorded(Apply(s, step))
  {
    var s' := Apply(s, step);
    forall c, id | Holds(s', c, id) ensures Holds(s, c, id) { HoldsBefore(s, step, c, id); }
    forall id | id in s'.list ensures !Held(s', id) { assert !Held(s, id); }
  }

  lemma {:induction false} ReachableOnePlace(s: State, steps: seq<Step>)
    requires Reachable(s, steps)
    ensures OnePlace(s) && OnlyRecorded(s)
    decreases |steps|
  {
    if steps != [] {
      var n := |steps| - 1;
      var before :| Reachable(before, steps[..n]) && Enabled(before, steps[n]) && s == Apply(before, steps[n]);
      ReachableOnePlace(before, steps[..n]);
      match steps[n]
      case Record(id, dropped) => RecordKeepsOnePlace(before, id, dropped);
      case Take(c) => TakeKeepsOnePlace(before, c);
      case Await(c) => AwaitKeepsOnePlace(before, c);
      case _ => OtherStepsKeepOnePlace(before, steps[n]);
    }
  }

  /** However many clones shut down, no handle is awaited twice. */
  lemma AwaitedOnce(s: State, steps: seq<Step>, c: CallerId)
    requires Reachable(s, steps) && Enabled(s, Await(c))
    ensures s.shutdowns[c].handles[0] !in s.awaited
  {
    ReachableOnePlace(s, steps);
    assert Holds(s, c, s.shutdowns[c].handles[0]);
  }

  // ---------------------------------------------------------------------------
  // Two shutdowns
  // ---------------------------------------------------------------------------

  lemma Extend(before: State, steps: seq<Step>, step: Step)
    requires Reachable(before, steps) && Enabled(before, step)
    ensures Reachable(Apply(before, step), steps + [step])
  {
    assert (steps + [step])[..|steps|] == steps;
  }

  /** From `s` these steps lead to `s'`. */
  ghost predicate Leads(s: State, steps: seq<Step>, s': State)
    decreases |steps|
  {
    if steps == [] then s' == s
    else Enabled(s, steps[0]) && Leads(Apply(s, steps[0]), steps[1..], s')
  }

  /** Some other shutdown already holds an unfinished save that `c` should wait for. */
  ghost predicate HeldElsewhere(s: State, c: CallerId)
    requires c in s.shutdowns
  {
    exists d, id :: d != c && Holds(s, d, id) && id in s.shutdowns[c].owed && id !in s.finished
  }

  /** The shutdown itself holds every unfinished save it owes. */
  ghost predicate HoldsAllOwed(s: State, c: CallerId) {
    && c in s.shutdowns
    && forall id :: id in s.shutdowns[c].owed && id !in s.finished ==> Holds(s, c, id)
  }

  lemma TakeHoldsAllOwed(s: State, steps: seq<Step>, c: CallerId)
    requires Reachable(s, steps) && Enabled(s, Take(c)) && !HeldElsewhere(s, c)
    ensures HoldsAllOwed(Apply(s, Take(c)), c)
  {
    ReachableLosesNone(s, steps);
    forall id | id in s.shutdowns[c].owed && id !in s.finished ensures id in s.list {
      assert forall d :: !Holds(s, d, id);
    }
  }

  lemma StepHoldsAllOwed(s: State, step: Step, c: CallerId)
    requires HoldsAllOwed(s, c) && !s.shutdowns[c].Begun? && Enabled(s, step)
    ensures HoldsAllOwed(Apply(s, step), c) && !Apply(s, step).shutdowns[c].Begun?
    ensures Apply(s, step).shutdowns[c].owed == s.shutdowns[c].owed
  {
  }

  lemma {:induction false} LeadsHoldsAllOwed(s: State, steps: seq<Step>, s': State, c: CallerId)
    requires HoldsAllOwed(s, c) && !s.shutdowns[c].Begun? && Leads(s, steps, s')
    ensures HoldsAllOwed(s', c) && s'.shutdowns[c].owed == s.shutdowns[c].owed
    decreases |steps|
  {
    if steps != [] {
      StepHoldsAllOwed(s, steps[0], c);
      LeadsHoldsAllOwed(Apply(s, steps[0]), steps[1..], s', c);
    }
  }

  /** A shutdown can return as soon as the handles it took are finished, whatever else is not. */
  lemma {:induction false} ReturnsWithout(s: State, c: CallerId, id: SaveId) returns (steps: seq<Step>, s': State)
    requires c in s.shutdowns && s.shutdowns[c].Awaiting? && id !in s.finished
    requires forall h :: h in s.shutdowns[c].handles ==> h in s.saves && h != id
    ensures Leads(s, steps, s')
    ensures c in s'.shutdowns && s'.shutdowns[c] == Done(s.shutdowns[c].owed) && id !in s'.finished
    decreases |s.shutdowns[c].handles|
  {
    if s.shutdowns[c].handles == [] {
      steps, s' := [End(c)], Apply(s, End(c));
      assert Leads(s', steps[1..], s');
    } else {
      var h := s.shutdowns[c].handles[0];
      var finished := Apply(s, Finish(h));
      var awaited := Apply(finished, Await(c));
      var rest;
      rest, s' := ReturnsWithout(awaited, c, id);
      steps := [Finish(h)] + ([Await(c)] + rest);
      assert ([Await(c)] + rest)[1..] == rest && steps[1..] == [Await(c)] + rest;
      assert Leads(finished, [Await(c)] + rest, s');
    }
  }

  ghost predicate ReturnedEarly(s: State, c: CallerId) {
    c in s.shutdowns && s.shutdowns[c].Done? && !(s.shutdowns[c].owed <= s.finished)
  }

  /** Some continuation lets the shutdown return before the saves it owes are finished. */
  ghost predicate MayReturnEarly(s: State, c: CallerId) {
    exists more, s' :: Leads(s, more, s') && ReturnedEarly(s', c)
  }

  lemma HeldElsewhereReturnsEarly(s: State, steps: seq<Step>, c: CallerId)
    requires Reachable(s, steps) && Enabled(s, Take(c)) && HeldElsewhere(s, c)
    ensures MayReturnEarly(Apply(s, Take(c)), c)
  {
    ReachableOnePlace(s, steps);
    var d, id :| d != c && Holds(s, d, id) && id in s.shutdowns[c].owed && id !in s.finished;
    assert Held(s, id);
    var more, s' := ReturnsWithout(Apply(s, Take(c)), c, id);
    assert id in s'.shutdowns[c].owed;
  }

  /** The shutdown promise, decided at the moment the shutdown takes the list: some continuation
      lets it return too early if and only if another shutdown then holds an unfinished save it owes. */
  lemma ShutdownWaitsIff(s: State, steps: seq<Step>, c: CallerId)
    requires Reachable(s, steps) && Enabled(s, Take(c))
    ensures MayReturnEarly(Apply(s, Take(c)), c) <==> HeldElsewhere(s, c)
  {
    if HeldElsewhere(s, c) {
      HeldElsewhereReturnsEarly(s, steps, c);
    } else {
      var taken := Apply(s, Take(c));
      TakeHoldsAllOwed(s, steps, c);
      forall more, s' | Leads(taken, more, s') ensures !ReturnedEarly(s', c) {
        LeadsHoldsAllOwed(taken, more, s', c);
      }
    }
  }

  lemma SaveReturns() returns (s: State, steps: seq<Step>)
    ensures Reachable(s, steps)
    ensures s == State(map[0 := Returned], {}, [0], map[], {})
  {
    s, steps := INITIAL, [];
    Extend(s, steps, Spawn(0)); s, steps := Apply(s, Spawn(0)), steps + [Spawn(0)];
    Extend(s, steps, Record(0, {})); s, steps := Apply(s, Record(0, {})), steps + [Record(0, {})];
    Extend(s, steps, Return(0)); s, steps := Apply(s, Return(0)), steps + [Return(0)];
  }

  /** A shutdown that finds the list empty can return at once, whatever it owes. */
  lemma EmptyListShutdown(before: State, earlier: seq<Step>, c: CallerId) returns (s: State, steps: seq<Step>)
    requires Reachable(before, earlier) && c !in before.shutdowns && before.list == []
    ensures Reachable(s, steps)
    ensures c in s.shutdowns && s.shutdowns[c] == Done(ReturnedSaves(before)) && s.finished == before.finished
  {
    s, steps := before, earlier;
    Extend(s, steps, Begin(c)); s, steps := Apply(s, Begin(c)), steps + [Begin(c)];
    Extend(s, steps, Take(c)); s, steps := Apply(s, Take(c)), steps + [Take(c)];
    Extend(s, steps, End(c)); s, steps := Apply(s, End(c)), steps + [End(c)];
  }

  /** "When shutdown returns, all earlier saves are done" fails for two concurrent shutdowns:
      the second returns at once while the first still holds the unfinished save. */
  lemma SecondShutdownDoesNotWait() returns (s: State, steps: seq<Step>)
    ensures Reachable(s, steps)
    ensures 2 in s.shutdowns && s.shutdowns[2] == Done({0}) && 0 !in s.finished
  {
    s, steps := SaveReturns();
    Extend(s, steps, Begin(1)); s, steps := Apply(s, Begin(1)), steps + [Begin(1)];
    Extend(s, steps, Take(1)); s, steps := Apply(s, Take(1)), steps + [Take(1)];
    assert ReturnedSaves(s) == {0};
    s, steps := EmptyListShutdown(s, steps, 2);
  }
}
