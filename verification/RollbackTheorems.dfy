/**
 What copy-on-write rollback guarantees over every sequence of storage
 operations in a hook, for all three guards at once.

 A *touch* is the first notified mutable access to a type in the hook, together
 with the view the type had just before it.  Touches are defined from the
 storage alone; the theorems relate them to the guard's frame.
 */
module RollbackTheorems {
  import opened Options
  import opened ExtensionModel

  // ---------------------------------------------------------------------------
  // Reference notions
  // ---------------------------------------------------------------------------

  function Ids(snaps: seq<Snapshot>): set<TypeId> {
    set x | x in snaps :: x.id
  }

  ghost predicate Distinct(snaps: seq<Snapshot>) {
    forall i, j :: 0 <= i < j < |snaps| ==> snaps[i].id != snaps[j].id
  }

  /** The value recorded for a type, if any. */
  function Lookup(snaps: seq<Snapshot>, t: TypeId): Option<Value> {
    if snaps == [] then None
    else if snaps[|snaps| - 1].id == t then Some(snaps[|snaps| - 1].value)
    else Lookup(snaps[..|snaps| - 1], t)
  }

  /** The type whose mutable reference the operation hands out through a notifying accessor. */
  function Notified(s: Store, op: Op): Option<TypeId> {
    match op
    case GetMut(t, _) => if t in s.hot then Some(t) else None
    case GetOrInsert(t, _) => Some(t)
    case _ => None
  }

  /** The touches after one more operation, a type being touched at most once. */
  function TouchesAfter(types: Types, s: Store, touches: seq<Snapshot>, op: Op): seq<Snapshot> {
    match Notified(s, op)
    case None => touches
    case Some(t) =>
      if t in Ids(touches) then touches else touches + [Snapshot(t, View(types, s, t))]
  }

  function Touches(types: Types, s: Store, ops: seq<Op>): seq<Snapshot> {
    if ops == [] then []
    else
      var before := Run(types, s, ops[..|ops| - 1]);
      var prev := Touches(types, s, ops[..|ops| - 1]);
      TouchesAfter(types, before, prev, ops[|ops| - 1])
  }

  /** Total weight of the snapshots charged to a bucket. */
  function Weight(types: Types, limits: Limits, snaps: seq<Snapshot>, b: Bucket): nat {
    if snaps == [] then 0
    else
      var last := snaps[|snaps| - 1];
      Weight(types, limits, snaps[..|snaps| - 1], b)
      + if BucketOf(limits, types(last.id).strategy) == Some(b) then types(last.id).weight(last.value) else 0
  }

  /** The touches a guard keeps: critical ones always, budgeted ones greedily, the rest never. */
  function Kept(types: Types, limits: Limits, hook: string, touches: seq<Snapshot>): seq<Snapshot> {
    if touches == [] then []
    else
      var last := touches[|touches| - 1];
      var prev := Kept(types, limits, hook, touches[..|touches| - 1]);
      if Keeps(types, limits, hook, prev, last) then prev + [last] else prev
  }

  /** Every hot type is registered: kept by all storage operations. */
  ghost predicate Valid(s: Store) {
    s.hot.Keys <= s.registered
  }

  /** The operations that reach a value only through the two notifying accessors. */
  predicate Tracked(op: Op) {
    op.GetMut? || op.GetOrInsert?
  }

  function EffectiveHook(g: Guard, hook: string): string {
    if g.limits.Adaptive? then hook else g.hook
  }

  lemma RunSnoc(types: Types, s: Store, ops: seq<Op>, op: Op)
    ensures Run(types, s, ops + [op]) == Step(types, Run(types, s, ops), op)
    ensures Touches(types, s, ops + [op]) == TouchesAfter(types, Run(types, s, ops), Touches(types, s, ops), op)
  {
    assert (ops + [op])[..|ops|] == ops;
  }

  /** A first access through `get_or_insert_default` is a touch. */
  lemma AccessTouches(types: Types, s: Store, ops: seq<Op>, t: TypeId, v: Value)
    requires t !in Ids(Touches(types, s, ops))
    ensures Touches(types, s, ops + [GetOrInsert(t, v)])
         == Touches(types, s, ops) + [Snapshot(t, View(types, Run(types, s, ops), t))]
  {
    RunSnoc(types, s, ops, GetOrInsert(t, v));
  }

  // ---------------------------------------------------------------------------
  // The invariant of a running hook
  // ---------------------------------------------------------------------------

  /** The guard's frame, counters and seen-set are a function of the touches. */
  ghost predicate GuardTracks(types: Types, limits: Limits, hook: string, g: Guard, touches: seq<Snapshot>) {
    && g.limits == limits
    && g.hook == hook
    && g.seen == Ids(touches)
    && g.frame == Some(Kept(types, limits, hook, touches))
    && g.standard == Weight(types, limits, g.frame.value, Standard)
    && g.bestEffort == Weight(types, limits, g.frame.value, BestEffort)
  }

  ghost predicate Attached(types: Types, limits: Limits, hook: string, s: Store, touches: seq<Snapshot>) {
    && Valid(s)
    && s.policy.Some?
    && s.seen == Ids(touches)
    && GuardTracks(types, limits, hook, s.policy.value, touches)
  }

  lemma WeightSnoc(types: Types, limits: Limits, snaps: seq<Snapshot>, x: Snapshot, b: Bucket)
    ensures Weight(types, limits, snaps + [x], b)
         == Weight(types, limits, snaps, b)
            + if BucketOf(limits, types(x.id).strategy) == Some(b) then types(x.id).weight(x.value) else 0
  {
    assert (snaps + [x])[..|snaps|] == snaps;
  }

  /** Whether the guard keeps one more touch, given what it already kept. */
  predicate Keeps(types: Types, limits: Limits, hook: string, kept: seq<Snapshot>, x: Snapshot) {
    match BucketOf(limits, types(x.id).strategy)
    case None => types(x.id).strategy.CriticalFullClone?
    case Some(b) => Weight(types, limits, kept, b) + types(x.id).weight(x.value) <= MaxOf(limits, hook, b)
  }

  lemma KeptSnoc(types: Types, limits: Limits, hook: string, touches: seq<Snapshot>, x: Snapshot)
    ensures var kept := Kept(types, limits, hook, touches);
      Kept(types, limits, hook, touches + [x]) == if Keeps(types, limits, hook, kept, x) then kept + [x] else kept
  {
    assert (touches + [x])[..|touches|] == touches;
  }

  lemma IdsSnoc(snaps: seq<Snapshot>, x: Snapshot)
    ensures Ids(snaps + [x]) == Ids(snaps) + {x.id}
  {
    assert forall y :: y in snaps + [x] <==> y in snaps || y == x;
  }

  lemma MutationTracks(types: Types, limits: Limits, hook: string, g: Guard, touches: seq<Snapshot>, x: Snapshot)
    requires GuardTracks(types, limits, hook, g, touches)
    requires x.id !in Ids(touches)
    ensures GuardTracks(types, limits, hook, OnMutation(g, x.id, types(x.id), x.value), touches + [x])
  {
    var kept := Kept(types, limits, hook, touches);
    IdsSnoc(touches, x);
    KeptSnoc(types, limits, hook, touches, x);
    WeightSnoc(types, limits, kept, x, Standard);
    WeightSnoc(types, limits, kept, x, BestEffort);
    assert Admits(g, types(x.id), x.value) == Keeps(types, limits, hook, kept, x);
  }

  lemma NotifyKeepsAttached(types: Types, limits: Limits, hook: string, s: Store, touches: seq<Snapshot>, t: TypeId, v: Value)
    requires Attached(types, limits, hook, s, touches)
    requires t in s.hot
    ensures Attached(types, limits, hook, Write(Notify(types, s, t), t, v),
                     if t in Ids(touches) then touches else touches + [Snapshot(t, s.hot[t])])
  {
    if t !in Ids(touches) {
      MutationTracks(types, limits, hook, s.policy.value, touches, Snapshot(t, s.hot[t]));
      IdsSnoc(touches, Snapshot(t, s.hot[t]));
    }
  }

  lemma UntrackedKeepsPolicy(types: Types, s: Store, op: Op)
    requires Valid(s) && !Tracked(op)
    ensures var s' := Step(types, s, op);
      Valid(s') && s'.policy == s.policy && s'.seen == s.seen
  {
  }

  lemma MaterialiseKeepsAttached(types: Types, limits: Limits, hook: string, s: Store, touches: seq<Snapshot>, t: TypeId)
    requires Attached(types, limits, hook, s, touches)
    ensures var m := Materialise(types, EnsureRegistered(types, s, t), t);
      Attached(types, limits, hook, m, touches) && t in m.hot && m.hot[t] == View(types, s, t)
  {
  }

  lemma GetOrInsertKeepsAttached(types: Types, limits: Limits, hook: string, s: Store, touches: seq<Snapshot>, t: TypeId, v: Value)
    requires Attached(types, limits, hook, s, touches)
    ensures Attached(types, limits, hook, Step(types, s, GetOrInsert(t, v)),
                     TouchesAfter(types, s, touches, GetOrInsert(t, v)))
  {
    MaterialiseKeepsAttached(types, limits, hook, s, touches, t);
    NotifyKeepsAttached(types, limits, hook, Materialise(types, EnsureRegistered(types, s, t), t), touches, t, v);
  }

  /** One plugin operation extends the invariant by the operation's touch. */
  lemma StepKeepsAttached(types: Types, limits: Limits, hook: string, s: Store, touches: seq<Snapshot>, op: Op)
    requires Attached(types, limits, hook, s, touches)
    ensures Attached(types, limits, hook, Step(types, s, op), TouchesAfter(types, s, touches, op))
  {
    if op.GetOrInsert? {
      GetOrInsertKeepsAttached(types, limits, hook, s, touches, op.t, op.v);
    } else if op.GetMut? {
      if op.t in s.hot { NotifyKeepsAttached(types, limits, hook, s, touches, op.t, op.v); }
    } else {
      UntrackedKeepsPolicy(types, s, op);
    }
  }

  /** Throughout every hook, the guard's frame and weights are determined by the
      touches, and the storage's and the guard's snapshotted sets agree. */
  lemma {:induction false} HookInvariant(types: Types, s: Store, g: Guard, hook: string, ops: seq<Op>)
    requires Valid(s)
    ensures Attached(types, g.limits, EffectiveHook(g, hook), AfterBody(types, s, g, hook, ops),
                     Touches(types, Attach(s, BeginHook(g, hook)), ops))
  {
    if ops == [] {
    } else {
      var n := |ops| - 1;
      HookInvariant(types, s, g, hook, ops[..n]);
      StepKeepsAttached(types, g.limits, EffectiveHook(g, hook), AfterBody(types, s, g, hook, ops[..n]),
                        Touches(types, Attach(s, BeginHook(g, hook)), ops[..n]), ops[n]);
    }
  }

  // ---------------------------------------------------------------------------
  // Facts about touches and kept snapshots
  // ---------------------------------------------------------------------------

  lemma LookupSnoc(snaps: seq<Snapshot>, x: Snapshot, t: TypeId)
    ensures Lookup(snaps + [x], t) == if x.id == t then Some(x.value) else Lookup(snaps, t)
  {
    assert (snaps + [x])[..|snaps|] == snaps;
  }

  lemma {:induction false} LookupIds(snaps: seq<Snapshot>, t: TypeId)
    ensures Lookup(snaps, t).Some? <==> t in Ids(snaps)
    ensures Lookup(snaps, t).Some? ==> Snapshot(t, Lookup(snaps, t).value) in snaps
  {
    if snaps != [] {
      var n := |snaps| - 1;
      LookupIds(snaps[..n], t);
      assert snaps == snaps[..n] + [snaps[n]];
      assert Ids(snaps) == Ids(snaps[..n]) + {snaps[n].id};
    }
  }

  lemma {:induction false} DistinctTouches(types: Types, s: Store, ops: seq<Op>)
    ensures Distinct(Touches(types, s, ops))
  {
    if ops != [] {
      var n := |ops| - 1;
      DistinctTouches(types, s, ops[..n]);
      var before := Run(types, s, ops[..n]);
      match Notified(before, ops[n])
      case None =>
      case Some(t) => DistinctSnoc(Touches(types, s, ops[..n]), Snapshot(t, View(types, before, t)));
    }
  }

  /** An operation adds a touch exactly when it first hands out the type. */
  lemma LookupAfterTouch(types: Types, s: Store, touches: seq<Snapshot>, op: Op, t: TypeId)
    ensures Lookup(TouchesAfter(types, s, touches, op), t)
         == if Notified(s, op) == Some(t) && Lookup(touches, t).None? then Some(View(types, s, t)) else Lookup(touches, t)
  {
    LookupIds(touches, t);
    match Notified(s, op)
    case None =>
    case Some(u) => LookupSnoc(touches, Snapshot(u, View(types, s, u)), t);
  }

  /** A touch records the view at the first notified access, and only notified types are touched. */
  lemma {:induction false} TouchIsFirstAccess(types: Types, s: Store, ops: seq<Op>, i: nat, t: TypeId)
    requires i <= |ops|
    requires forall j :: 0 <= j < i ==> Notified(Run(types, s, ops[..j]), ops[j]) != Some(t)
    requires i < |ops| ==> Notified(Run(types, s, ops[..i]), ops[i]) == Some(t)
    ensures Lookup(Touches(types, s, ops), t)
         == if i < |ops| then Some(View(types, Run(types, s, ops[..i]), t)) else None
  {
    if ops != [] {
      var n := |ops| - 1;
      var front := ops[..n];
      forall j | 0 <= j <= n ensures front[..j] == ops[..j] { }
      LookupAfterTouch(types, Run(types, s, front), Touches(types, s, front), ops[n], t);
      TouchIsFirstAccess(types, s, front, if i < n then i else n, t);
    }
  }

  lemma DistinctSnoc(snaps: seq<Snapshot>, x: Snapshot)
    ensures Distinct(snaps + [x]) <==> Distinct(snaps) && x.id !in Ids(snaps)
  {
    var all := snaps + [x];
    forall i | 0 <= i < |snaps| ensures snaps[i].id in Ids(snaps) && all[i] == snaps[i] { }
    if Distinct(all) {
      forall i, j | 0 <= i < j < |snaps| ensures snaps[i].id != snaps[j].id {
        assert all[i].id != all[j].id;
      }
      forall i | 0 <= i < |snaps| ensures snaps[i].id != x.id { assert all[i].id != all[|snaps|].id; }
    }
  }

  /** Each type is kept at most once, and only if it was touched. */
  lemma {:induction false} KeptIsDistinct(types: Types, limits: Limits, hook: string, touches: seq<Snapshot>)
    requires Distinct(touches)
    ensures Distinct(Kept(types, limits, hook, touches))
    ensures Ids(Kept(types, limits, hook, touches)) <= Ids(touches)
  {
    if touches != [] {
      var n := |touches| - 1;
      var prev := Kept(types, limits, hook, touches[..n]);
      assert touches == touches[..n] + [touches[n]];
      DistinctSnoc(touches[..n], touches[n]);
      KeptIsDistinct(types, limits, hook, touches[..n]);
      KeptSnoc(types, limits, hook, touches[..n], touches[n]);
      IdsSnoc(touches[..n], touches[n]);
      IdsSnoc(prev, touches[n]);
      DistinctSnoc(prev, touches[n]);
    }
  }

  /** A kept snapshot is the touch of its type, unchanged. */
  lemma {:induction false} KeptAreTouches(types: Types, limits: Limits, hook: string, touches: seq<Snapshot>, t: TypeId)
    requires Distinct(touches)
    ensures t in Ids(Kept(types, limits, hook, touches))
        ==> Lookup(Kept(types, limits, hook, touches), t) == Lookup(touches, t)
    ensures t in Ids(Kept(types, limits, hook, touches)) ==> t in Ids(touches)
  {
    KeptIsDistinct(types, limits, hook, touches);
    if touches != [] {
      var n := |touches| - 1;
      assert touches == touches[..n] + [touches[n]];
      DistinctSnoc(touches[..n], touches[n]);
      KeptAreTouches(types, limits, hook, touches[..n], t);
      var prev := Kept(types, limits, hook, touches[..n]);
      KeptSnoc(types, limits, hook, touches[..n], touches[n]);
      IdsSnoc(prev, touches[n]);
      LookupSnoc(touches[..n], touches[n], t);
      LookupSnoc(prev, touches[n], t);
    }
  }

  /** Critical touches are always kept; `NoSnapshot` touches never are. */
  lemma {:induction false} CriticalIsKept(types: Types, limits: Limits, hook: string, touches: seq<Snapshot>, t: TypeId)
    requires Distinct(touches)
    ensures types(t).strategy.CriticalFullClone? && t in Ids(touches) ==> t in Ids(Kept(types, limits, hook, touches))
    ensures types(t).strategy.NoSnapshot? ==> t !in Ids(Kept(types, limits, hook, touches))
  {
    if touches != [] {
      var n := |touches| - 1;
      var prev := Kept(types, limits, hook, touches[..n]);
      assert touches == touches[..n] + [touches[n]];
      DistinctSnoc(touches[..n], touches[n]);
      CriticalIsKept(types, limits, hook, touches[..n], t);
      KeptSnoc(types, limits, hook, touches[..n], touches[n]);
      IdsSnoc(touches[..n], touches[n]);
      IdsSnoc(prev, touches[n]);
    }
  }

  /** The kept weight never passes the budget of its bucket. */
  lemma {:induction false} KeptWithinBudget(types: Types, limits: Limits, hook: string, touches: seq<Snapshot>, b: Bucket)
    ensures Weight(types, limits, Kept(types, limits, hook, touches), b) <= MaxOf(limits, hook, b)
  {
    if touches != [] {
      var n := |touches| - 1;
      KeptWithinBudget(types, limits, hook, touches[..n], b);
      WeightSnoc(types, limits, Kept(types, limits, hook, touches[..n]), touches[n], b);
    }
  }

  /** Nor does it pass the weight of everything touched. */
  lemma {:induction false} KeptBelowTouched(types: Types, limits: Limits, hook: string, touches: seq<Snapshot>, b: Bucket)
    ensures Weight(types, limits, Kept(types, limits, hook, touches), b) <= Weight(types, limits, touches, b)
  {
    if touches != [] {
      var n := |touches| - 1;
      KeptBelowTouched(types, limits, hook, touches[..n], b);
      WeightSnoc(types, limits, Kept(types, limits, hook, touches[..n]), touches[n], b);
    }
  }

  /** A type's own bucket, if it has one, has room for everything touched that is charged to it. */
  predicate Fits(types: Types, limits: Limits, hook: string, touches: seq<Snapshot>, t: TypeId) {
    match BucketOf(limits, types(t).strategy)
    case None => types(t).strategy.CriticalFullClone?
    case Some(b) => Weight(types, limits, touches, b) <= MaxOf(limits, hook, b)
  }

  /** A touched type whose own bucket has room for everything charged to it is kept,
      however full the other bucket is. */
  lemma {:induction false} AllKeptWhenFitting(types: Types, limits: Limits, hook: string, touches: seq<Snapshot>, t: TypeId)
    requires Fits(types, limits, hook, touches, t) && t in Ids(touches)
    ensures t in Ids(Kept(types, limits, hook, touches))
  {
    var n := |touches| - 1;
    assert touches == touches[..n] + [touches[n]];
    IdsSnoc(touches[..n], touches[n]);
    KeptSnoc(types, limits, hook, touches[..n], touches[n]);
    IdsSnoc(Kept(types, limits, hook, touches[..n]), touches[n]);
    if touches[n].id == t {
      match BucketOf(limits, types(t).strategy)
      case None =>
      case Some(b) => KeptBelowTouched(types, limits, hook, touches[..n], b);
    } else {
      AllKeptWhenFitting(types, limits, hook, touches[..n], t);
    }
  }

  lemma {:induction false} RestoreLookup(hot: map<TypeId, Value>, frame: seq<Snapshot>, t: TypeId)
    ensures var r := Restore(hot, frame);
      && (t in r <==> t in hot || Lookup(frame, t).Some?)
      && (Lookup(frame, t).Some? ==> r[t] == Lookup(frame, t).value)
      && (Lookup(frame, t).None? && t in hot ==> r[t] == hot[t])
  {
    if frame != [] {
      RestoreLookup(hot, frame[..|frame| - 1], t);
    }
  }

  // ---------------------------------------------------------------------------
  // Rollback and commit
  // ---------------------------------------------------------------------------

  /** The snapshots the guard holds when the hook body ends. */
  function KeptByHook(types: Types, s: Store, g: Guard, hook: string, ops: seq<Op>): seq<Snapshot> {
    Kept(types, g.limits, EffectiveHook(g, hook), Touches(types, Attach(s, BeginHook(g, hook)), ops))
  }

  /** The storage after the body when the driver rolls back (or when it commits). */
  function RolledBack(types: Types, s: Store, g: Guard, hook: string, ops: seq<Op>): Store {
    var body := AfterBody(types, s, g, hook, ops);
    if body.policy.None? then body else RollbackHook(types, Detach(body), body.policy.value)
  }

  function Committed(types: Types, s: Store, g: Guard, hook: string, ops: seq<Op>): Store {
    var body := AfterBody(types, s, g, hook, ops);
    if body.policy.None? then body else CommitHook(types, Detach(body), body.policy.value)
  }

  /** Logging an event with no guard attached appends to the log's view and to nothing else. */
  lemma LogEventOutcome(types: Types, s: Store, e: RollbackEvent)
    requires Valid(s) && s.policy.None?
    ensures var after := LogEvent(types, s, e);
      && Valid(after)
      && after.cold == s.cold
      && View(types, after, EVENT_LOG) == AppendEvent(View(types, s, EVENT_LOG), e)
      && forall t :: t != EVENT_LOG ==> View(types, after, t) == View(types, s, t)
  {
  }

  /** The guard at the end of the hook body. */
  function GuardAtEnd(types: Types, s: Store, g: Guard, hook: string, ops: seq<Op>): Guard
    requires Valid(s)
  {
    HookInvariant(types, s, g, hook, ops);
    AfterBody(types, s, g, hook, ops).policy.value
  }

  lemma GuardAtEndFacts(types: Types, s: Store, g: Guard, hook: string, ops: seq<Op>)
    requires Valid(s)
    ensures var kept := KeptByHook(types, s, g, hook, ops);
      var end := GuardAtEnd(types, s, g, hook, ops);
      && AfterBody(types, s, g, hook, ops).policy == Some(end)
      && Valid(AfterBody(types, s, g, hook, ops))
      && end.frame == Some(kept)
      && BudgetExceeded(end) == ExactlyFull(types, s, g, hook, ops)
      && forall rollback :: HookEvent(end, rollback) ==
           RollbackEvent(if g.limits.Adaptive? then hook else "", rollback,
             Weight(types, g.limits, kept, Standard) + Weight(types, g.limits, kept, BestEffort),
             ExactlyFull(types, s, g, hook, ops))
  {
    HookInvariant(types, s, g, hook, ops);
    var touches := Touches(types, Attach(s, BeginHook(g, hook)), ops);
    KeptWithinBudget(types, g.limits, EffectiveHook(g, hook), touches, Standard);
    KeptWithinBudget(types, g.limits, EffectiveHook(g, hook), touches, BestEffort);
  }

  /** The detached storage with the kept snapshots written back. */
  function RestoredBody(types: Types, s: Store, g: Guard, hook: string, ops: seq<Op>): Store {
    var body := Detach(AfterBody(types, s, g, hook, ops));
    body.(hot := Restore(body.hot, KeptByHook(types, s, g, hook, ops)))
  }

  lemma StepRegisters(types: Types, s: Store, op: Op)
    requires Valid(s)
    ensures s.registered <= Step(types, s, op).registered
    ensures Notified(s, op).Some? ==> Notified(s, op).value in Step(types, s, op).registered
  {
  }

  lemma {:induction false} TouchedAreRegistered(types: Types, s: Store, g: Guard, hook: string, ops: seq<Op>, t: TypeId)
    requires Valid(s)
    requires t in Ids(Touches(types, Attach(s, BeginHook(g, hook)), ops))
    ensures t in AfterBody(types, s, g, hook, ops).registered
  {
    if ops != [] {
      var n := |ops| - 1;
      HookInvariant(types, s, g, hook, ops[..n]);
      var before := AfterBody(types, s, g, hook, ops[..n]);
      StepRegisters(types, before, ops[n]);
      var prev := Touches(types, Attach(s, BeginHook(g, hook)), ops[..n]);
      if t in Ids(prev) {
        TouchedAreRegistered(types, s, g, hook, ops[..n], t);
      } else {
        IdsSnoc(prev, Snapshot(t, View(types, before, t)));
      }
    }
  }

  lemma RestoredIsValid(types: Types, s: Store, g: Guard, hook: string, ops: seq<Op>)
    requires Valid(s)
    ensures Valid(RestoredBody(types, s, g, hook, ops))
  {
    var at := Attach(s, BeginHook(g, hook));
    var kept := KeptByHook(types, s, g, hook, ops);
    HookInvariant(types, s, g, hook, ops);
    DistinctTouches(types, at, ops);
    forall t | t in RestoredBody(types, s, g, hook, ops).hot
      ensures t in AfterBody(types, s, g, hook, ops).registered
    {
      RestoreLookup(AfterBody(types, s, g, hook, ops).hot, kept, t);
      LookupIds(kept, t);
      KeptAreTouches(types, g.limits, EffectiveHook(g, hook), Touches(types, at, ops), t);
      if t in Ids(kept) { TouchedAreRegistered(types, s, g, hook, ops, t); }
    }
  }

  /** Over every operation sequence: rollback puts each kept type back to its view
      at first access and leaves every other type, and the whole cold map, as the body left them. */
  lemma RollbackOutcome(types: Types, s: Store, g: Guard, hook: string, ops: seq<Op>, t: TypeId)
    requires Valid(s) && t != EVENT_LOG
    ensures var body := AfterBody(types, s, g, hook, ops);
      var after := RolledBack(types, s, g, hook, ops);
      && after.cold == body.cold
      && View(types, after, t)
         == (match Lookup(KeptByHook(types, s, g, hook, ops), t)
             case Some(v) => v
             case None => View(types, body, t))
  {
    GuardAtEndFacts(types, s, g, hook, ops);
    RestoreLookup(AfterBody(types, s, g, hook, ops).hot, KeptByHook(types, s, g, hook, ops), t);
    RestoredIsValid(types, s, g, hook, ops);
    LogEventOutcome(types, RestoredBody(types, s, g, hook, ops),
                    HookEvent(GuardAtEnd(types, s, g, hook, ops), true));
  }

  /** Commit keeps every view the body produced. */
  lemma CommitOutcome(types: Types, s: Store, g: Guard, hook: string, ops: seq<Op>, t: TypeId)
    requires Valid(s) && t != EVENT_LOG
    ensures var body := AfterBody(types, s, g, hook, ops);
      && Committed(types, s, g, hook, ops).cold == body.cold
      && View(types, Committed(types, s, g, hook, ops), t) == View(types, body, t)
  {
    GuardAtEndFacts(types, s, g, hook, ops);
    LogEventOutcome(types, Detach(AfterBody(types, s, g, hook, ops)),
                    HookEvent(GuardAtEnd(types, s, g, hook, ops), false));
  }

  /** A touched critical type always returns to the view it had at its first notified access. */
  lemma CriticalTypesRollBack(types: Types, s: Store, g: Guard, hook: string, ops: seq<Op>, i: nat, t: TypeId)
    requires Valid(s) && t != EVENT_LOG && types(t).strategy.CriticalFullClone?
    requires i < |ops|
    requires forall j :: 0 <= j < i ==> Notified(AfterBody(types, s, g, hook, ops[..j]), ops[j]) != Some(t)
    requires Notified(AfterBody(types, s, g, hook, ops[..i]), ops[i]) == Some(t)
    ensures View(types, RolledBack(types, s, g, hook, ops), t)
         == View(types, AfterBody(types, s, g, hook, ops[..i]), t)
  {
    var at := Attach(s, BeginHook(g, hook));
    var touches := Touches(types, at, ops);
    TouchIsFirstAccess(types, at, ops, i, t);
    LookupIds(touches, t);
    DistinctTouches(types, at, ops);
    CriticalIsKept(types, g.limits, EffectiveHook(g, hook), touches, t);
    KeptAreTouches(types, g.limits, EffectiveHook(g, hook), touches, t);
    LookupIds(KeptByHook(types, s, g, hook, ops), t);
    RollbackOutcome(types, s, g, hook, ops, t);
  }

  /** A notifying access changes no view but that of the type it hands out, and no blob. */
  lemma TrackedStep(types: Types, s: Store, op: Op, t: TypeId)
    requires Tracked(op)
    ensures Step(types, s, op).cold == s.cold
    ensures Notified(s, op) != Some(t) ==> View(types, Step(types, s, op), t) == View(types, s, t)
  {
  }

  /** When a hook only uses the notifying accessors, views change only through
      touches, and each touch records the view at hook start. */
  lemma {:induction false} TrackedViews(types: Types, s: Store, g: Guard, hook: string, ops: seq<Op>, t: TypeId)
    requires Valid(s)
    requires forall i :: 0 <= i < |ops| ==> Tracked(ops[i])
    ensures var touched := Lookup(Touches(types, Attach(s, BeginHook(g, hook)), ops), t);
      && AfterBody(types, s, g, hook, ops).cold == s.cold
      && (touched.Some? ==> touched.value == View(types, s, t))
      && (touched.None? ==> View(types, AfterBody(types, s, g, hook, ops), t) == View(types, s, t))
  {
    if ops != [] {
      var n := |ops| - 1;
      var at := Attach(s, BeginHook(g, hook));
      var before := AfterBody(types, s, g, hook, ops[..n]);
      TrackedViews(types, s, g, hook, ops[..n], t);
      TrackedStep(types, before, ops[n], t);
      var prev := Touches(types, at, ops[..n]);
      LookupIds(prev, t);
      match Notified(before, ops[n])
      case None =>
      case Some(u) => LookupSnoc(prev, Snapshot(u, View(types, before, u)), t);
    }
  }

  /** The main guarantee: after a rollback every type other than the event log is
      back at its hook-start view if it was not touched, is critical, or its own
      bucket had room for everything charged to it; the cold map is as at hook start. */
  lemma RollbackRestoresHookStart(types: Types, s: Store, g: Guard, hook: string, ops: seq<Op>, t: TypeId)
    requires Valid(s) && t != EVENT_LOG
    requires forall i :: 0 <= i < |ops| ==> Tracked(ops[i])
    ensures var touches := Touches(types, Attach(s, BeginHook(g, hook)), ops);
      var after := RolledBack(types, s, g, hook, ops);
      && after.cold == s.cold
      && (t !in Ids(touches) || Fits(types, g.limits, EffectiveHook(g, hook), touches, t)
          ==> View(types, after, t) == View(types, s, t))
  {
    var limits, h := g.limits, EffectiveHook(g, hook);
    var at := Attach(s, BeginHook(g, hook));
    var touches := Touches(types, at, ops);
    RollbackOutcome(types, s, g, hook, ops, t);
    TrackedViews(types, s, g, hook, ops, t);
    DistinctTouches(types, at, ops);
    KeptAreTouches(types, limits, h, touches, t);
    LookupIds(touches, t);
    LookupIds(Kept(types, limits, h, touches), t);
    if t in Ids(touches) && Fits(types, limits, h, touches, t) { AllKeptWhenFitting(types, limits, h, touches, t); }
  }

  /** Best effort, exactly: a rolled-back hook leaves each type at its hook-start
      view or at its last written value, and the choice is whether it was kept. */
  lemma RollbackIsBestEffort(types: Types, s: Store, g: Guard, hook: string, ops: seq<Op>, t: TypeId)
    requires Valid(s) && t != EVENT_LOG
    requires forall i :: 0 <= i < |ops| ==> Tracked(ops[i])
    ensures View(types, RolledBack(types, s, g, hook, ops), t)
         == if t in Ids(KeptByHook(types, s, g, hook, ops)) then View(types, s, t)
            else View(types, AfterBody(types, s, g, hook, ops), t)
  {
    var at := Attach(s, BeginHook(g, hook));
    var touches := Touches(types, at, ops);
    RollbackOutcome(types, s, g, hook, ops, t);
    TrackedViews(types, s, g, hook, ops, t);
    DistinctTouches(types, at, ops);
    KeptAreTouches(types, g.limits, EffectiveHook(g, hook), touches, t);
    LookupIds(KeptByHook(types, s, g, hook, ops), t);
  }

  /** In every reachable frame each type occurs once, the counters are the kept
      weights, no counter passes its budget, and both snapshotted sets agree. */
  lemma FrameInvariant(types: Types, s: Store, g: Guard, hook: string, ops: seq<Op>)
    requires Valid(s)
    ensures var body := AfterBody(types, s, g, hook, ops);
      && body.policy.Some?
      && var now := body.policy.value;
      && now.frame.Some?
      && now.seen == body.seen
      && Distinct(now.frame.value)
      && Ids(now.frame.value) <= now.seen
      && forall b: Bucket ::
           UsedOf(now, b) == Weight(types, g.limits, now.frame.value, b) <= MaxOf(g.limits, now.hook, b)
  {
    HookInvariant(types, s, g, hook, ops);
    var touches := Touches(types, Attach(s, BeginHook(g, hook)), ops);
    DistinctTouches(types, Attach(s, BeginHook(g, hook)), ops);
    KeptIsDistinct(types, g.limits, EffectiveHook(g, hook), touches);
    KeptWithinBudget(types, g.limits, EffectiveHook(g, hook), touches, Standard);
    KeptWithinBudget(types, g.limits, EffectiveHook(g, hook), touches, BestEffort);
  }

  // ---------------------------------------------------------------------------
  // The driver
  // ---------------------------------------------------------------------------

  /** Some bucket in use is charged up to exactly its budget. */
  ghost predicate ExactlyFull(types: Types, s: Store, g: Guard, hook: string, ops: seq<Op>) {
    var kept := KeptByHook(types, s, g, hook, ops);
    var h := EffectiveHook(g, hook);
    || Weight(types, g.limits, kept, Standard) == MaxOf(g.limits, h, Standard)
    || (g.limits.Tiered? && Weight(types, g.limits, kept, BestEffort) == MaxOf(g.limits, h, BestEffort))
  }

  /** The driver rolls a hook back if and only if the kept weight of some bucket
      equals its budget: a snapshot that would pass the budget is abandoned
      without being counted, so the budget is never seen as exceeded. */
  lemma DriverRollsBackExactlyWhenFull(types: Types, s: Store, g: Guard, hook: string, ops: seq<Op>)
    requires Valid(s)
    ensures DrivenHook(types, s, g, hook, ops)
         == if ExactlyFull(types, s, g, hook, ops) then RolledBack(types, s, g, hook, ops)
            else Committed(types, s, g, hook, ops)
  {
    GuardAtEndFacts(types, s, g, hook, ops);
  }

  /** The promise "over budget means rolled back" fails: a hook whose only touch
      outweighs a positive budget is committed with the written value. */
  lemma OverBudgetHookCommits(types: Types, s: Store, max: nat, t: TypeId, v: Value)
    requires Valid(s) && t != EVENT_LOG
    requires types(t).strategy.FullClone?
    requires 0 < max < types(t).weight(View(types, s, t))
    ensures var g := Guard(Flat(max), None, 0, 0, {}, "");
      && Weight(types, g.limits, Touches(types, Attach(s, BeginHook(g, "")), [GetOrInsert(t, v)]), Standard) > max
      && View(types, DrivenHook(types, s, g, "", [GetOrInsert(t, v)]), t) == v
  {
    var g := Guard(Flat(max), None, 0, 0, {}, "");
    var at := Attach(s, BeginHook(g, ""));
    var ops := [GetOrInsert(t, v)];
    assert ops[..0] == [];
    assert Run(types, at, []) == at;
    assert Touches(types, at, []) == [];
    var snap := Snapshot(t, View(types, s, t));
    assert Touches(types, at, ops) == [] + [snap];
    KeptSnoc(types, g.limits, "", [], snap);
    WeightSnoc(types, g.limits, [], snap, Standard);
    DriverRollsBackExactlyWhenFull(types, s, g, "", ops);
    CommitOutcome(types, s, g, "", ops, t);
  }

  /** Each driven hook appends exactly one event to what the body left (or what
      rollback restored) in the log, and a rollback event always says the budget was exceeded. */
  lemma DrivenHookLogsOneEvent(types: Types, s: Store, g: Guard, hook: string, ops: seq<Op>)
    requires Valid(s)
    ensures var body := AfterBody(types, s, g, hook, ops);
      var full := ExactlyFull(types, s, g, hook, ops);
      var kept := KeptByHook(types, s, g, hook, ops);
      var base := if full && Lookup(kept, EVENT_LOG).Some? then Lookup(kept, EVENT_LOG).value
                  else View(types, body, EVENT_LOG);
      base.EventLog? ==>
        View(types, DrivenHook(types, s, g, hook, ops), EVENT_LOG)
        == EventLog(base.events + [RollbackEvent(
             if g.limits.Adaptive? then hook else "", full,
             Weight(types, g.limits, kept, Standard) + Weight(types, g.limits, kept, BestEffort), full)])
  {
    GuardAtEndFacts(types, s, g, hook, ops);
    RestoredIsValid(types, s, g, hook, ops);
    var end := GuardAtEnd(types, s, g, hook, ops);
    RestoreLookup(AfterBody(types, s, g, hook, ops).hot, KeptByHook(types, s, g, hook, ops), EVENT_LOG);
    LogEventOutcome(types, RestoredBody(types, s, g, hook, ops), HookEvent(end, true));
    LogEventOutcome(types, Detach(AfterBody(types, s, g, hook, ops)), HookEvent(end, false));
  }

  /** The storage stays valid from hook to hook. */
  lemma DrivenHookKeepsValid(types: Types, s: Store, g: Guard, hook: string, ops: seq<Op>)
    requires Valid(s)
    ensures Valid(DrivenHook(types, s, g, hook, ops))
  {
    GuardAtEndFacts(types, s, g, hook, ops);
    RestoredIsValid(types, s, g, hook, ops);
    var end := GuardAtEnd(types, s, g, hook, ops);
    LogEventOutcome(types, RestoredBody(types, s, g, hook, ops), HookEvent(end, true));
    LogEventOutcome(types, Detach(AfterBody(types, s, g, hook, ops)), HookEvent(end, false));
  }
}
