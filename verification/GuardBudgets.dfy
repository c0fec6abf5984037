/**
 Which budgets the three guards obey, in terms of their thresholds and of the
 weights of what they hold by snapshot strategy; and the adaptive guard against
 the plain one.
 */
module GuardBudgets {
  import opened Options
  import opened ExtensionModel
  import opened RollbackTheorems

  // ---------------------------------------------------------------------------
  // Thresholds
  // ---------------------------------------------------------------------------

  /** Total weight of the snapshots of the types with a given strategy. */
  function StrategyWeight(types: Types, snaps: seq<Snapshot>, strategy: Strategy): nat {
    if snaps == [] then 0
    else
      var last := snaps[|snaps| - 1];
      StrategyWeight(types, snaps[..|snaps| - 1], strategy)
      + if types(last.id).strategy == strategy then types(last.id).weight(last.value) else 0
  }

  /** The budget an adaptive guard has for a hook: the policy's, or the fallback without one. */
  function AdaptiveBudget(fallback: nat, policy: Option<string -> nat>, hook: string): nat {
    match policy
    case Some(budget) => budget(hook)
    case None => fallback
  }

  /** The plain and the adaptive guard charge full and incremental clones to one budget, the
      tiered guard each to its own. */
  lemma {:induction false} BucketWeights(types: Types, limits: Limits, snaps: seq<Snapshot>)
    ensures var full, incremental := StrategyWeight(types, snaps, FullClone), StrategyWeight(types, snaps, Incremental);
      && (limits.Tiered? ==>
            Weight(types, limits, snaps, Standard) == full && Weight(types, limits, snaps, BestEffort) == incremental)
      && (!limits.Tiered? ==>
            Weight(types, limits, snaps, Standard) == full + incremental && Weight(types, limits, snaps, BestEffort) == 0)
  {
    if snaps != [] { BucketWeights(types, limits, snaps[..|snaps| - 1]); }
  }

  /** Whether a value of weight `w` fits what is left of the threshold for its strategy, when
      `full` and `incremental` are the weights already held. */
  predicate FitsThreshold(limits: Limits, hook: string, strategy: Strategy, full: nat, incremental: nat, w: nat) {
    match strategy
    case CriticalFullClone => true
    case NoSnapshot => false
    case FullClone =>
      (match limits
       case Flat(max) => full + incremental + w <= max
       case Tiered(maxStandard, _) => full + w <= maxStandard
       case Adaptive(fallback, policy) => full + incremental + w <= AdaptiveBudget(fallback, policy, hook))
    case Incremental =>
      (match limits
       case Flat(max) => full + incremental + w <= max
       case Tiered(_, maxBestEffort) => incremental + w <= maxBestEffort
       case Adaptive(fallback, policy) => full + incremental + w <= AdaptiveBudget(fallback, policy, hook))
  }

  lemma KeepsByThreshold(types: Types, limits: Limits, hook: string, kept: seq<Snapshot>, x: Snapshot)
    ensures Keeps(types, limits, hook, kept, x)
         == FitsThreshold(limits, hook, types(x.id).strategy,
                          StrategyWeight(types, kept, FullClone), StrategyWeight(types, kept, Incremental),
                          types(x.id).weight(x.value))
  {
    BucketWeights(types, limits, kept);
  }

  /** One more touch is kept if and only if its type is critical, or its weight fits what is left
      of the threshold that holds for its strategy. */
  lemma KeptByThreshold(types: Types, limits: Limits, hook: string, touches: seq<Snapshot>, x: Snapshot)
    ensures var kept := Kept(types, limits, hook, touches);
      Kept(types, limits, hook, touches + [x])
      == if FitsThreshold(limits, hook, types(x.id).strategy,
                          StrategyWeight(types, kept, FullClone), StrategyWeight(types, kept, Incremental),
                          types(x.id).weight(x.value))
         then kept + [x] else kept
  {
    KeptSnoc(types, limits, hook, touches, x);
    KeepsByThreshold(types, limits, hook, Kept(types, limits, hook, touches), x);
  }

  /** At the end of every hook each guard holds at most its thresholds, and the driver rolls back
      if and only if one of them is met exactly. */
  lemma GuardsObeyThresholds(types: Types, s: Store, g: Guard, hook: string, ops: seq<Op>)
    requires Valid(s)
    ensures var kept := KeptByHook(types, s, g, hook, ops);
      var full, incremental := StrategyWeight(types, kept, FullClone), StrategyWeight(types, kept, Incremental);
      var exceeded := match g.limits
        case Flat(max) => full + incremental == max
        case Tiered(maxStandard, maxBestEffort) => full == maxStandard || incremental == maxBestEffort
        case Adaptive(fallback, policy) => full + incremental == AdaptiveBudget(fallback, policy, hook);
      && (match g.limits
          case Flat(max) => full + incremental <= max
          case Tiered(maxStandard, maxBestEffort) => full <= maxStandard && incremental <= maxBestEffort
          case Adaptive(fallback, policy) => full + incremental <= AdaptiveBudget(fallback, policy, hook))
      && DrivenHook(types, s, g, hook, ops)
         == if exceeded then RolledBack(types, s, g, hook, ops) else Committed(types, s, g, hook, ops)
  {
    var kept := KeptByHook(types, s, g, hook, ops);
    BucketWeights(types, g.limits, kept);
    KeptWithinBudget(types, g.limits, EffectiveHook(g, hook), Touches(types, Attach(s, BeginHook(g, hook)), ops), Standard);
    KeptWithinBudget(types, g.limits, EffectiveHook(g, hook), Touches(types, Attach(s, BeginHook(g, hook)), ops), BestEffort);
    DriverRollsBackExactlyWhenFull(types, s, g, hook, ops);
  }

  // ---------------------------------------------------------------------------
  // The adaptive guard against the plain one
  // ---------------------------------------------------------------------------

  /** The guard with the plain guard's threshold in place of its own limits. */
  function Plain(g: Guard, max: nat): Guard {
    g.(limits := Flat(max), hook := "")
  }

  function WithPlain(s: Store, max: nat): Store {
    if s.policy.Some? then s.(policy := Some(Plain(s.policy.value, max))) else s
  }

  /** An adaptive guard in the middle of a hook for which its budget is `max`. */
  predicate HasBudget(g: Guard, max: nat) {
    g.limits.Adaptive? && max == AdaptiveBudget(g.limits.fallback, g.limits.budget, g.hook)
  }

  lemma AdmitsAsPlain(g: Guard, max: nat, vt: VTable, current: Value)
    requires HasBudget(g, max)
    ensures Admits(Plain(g, max), vt, current) == Admits(g, vt, current)
    ensures Charge(Plain(g, max), vt, current) == Plain(Charge(g, vt, current), max)
    ensures HasBudget(Charge(g, vt, current), max)
  {
  }

  lemma MutationAsPlain(g: Guard, max: nat, t: TypeId, vt: VTable, current: Value)
    requires HasBudget(g, max)
    ensures OnMutation(Plain(g, max), t, vt, current) == Plain(OnMutation(g, t, vt, current), max)
    ensures HasBudget(OnMutation(g, t, vt, current), max)
  {
    AdmitsAsPlain(g, max, vt, current);
  }

  ghost predicate Adapted(s: Store, max: nat) {
    s.policy.Some? && HasBudget(s.policy.value, max)
  }

  lemma NotifyAsPlain(types: Types, s: Store, max: nat, t: TypeId)
    requires Adapted(s, max)
    ensures Notify(types, WithPlain(s, max), t) == WithPlain(Notify(types, s, t), max)
    ensures Adapted(Notify(types, s, t), max)
  {
    if t in s.hot { MutationAsPlain(s.policy.value, max, t, types(t), s.hot[t]); }
  }

  lemma WriteAsPlain(s: Store, max: nat, t: TypeId, v: Value)
    ensures Write(WithPlain(s, max), t, v) == WithPlain(Write(s, t, v), max)
  {
  }

  lemma RegisteredAsPlain(types: Types, s: Store, max: nat, t: TypeId)
    ensures EnsureRegistered(types, WithPlain(s, max), t) == WithPlain(EnsureRegistered(types, s, t), max)
  {
  }

  lemma MaterialiseAsPlain(types: Types, s: Store, max: nat, t: TypeId)
    ensures Materialise(types, WithPlain(s, max), t) == WithPlain(Materialise(types, s, t), max)
  {
  }

  lemma InsertAsPlain(types: Types, s: Store, max: nat, t: TypeId, v: Value)
    ensures Insert(types, WithPlain(s, max), t, v) == WithPlain(Insert(types, s, t, v), max)
    ensures Insert(types, s, t, v).policy == s.policy
  {
    var r := EnsureRegistered(types, s, t);
    RegisteredAsPlain(types, s, max, t);
    WriteAsPlain(r, max, t, v);
    if types(t).serialize(v).Some? {
      BlobAsPlain(Write(r, t, v), max, r.cold[types(t).extId := types(t).serialize(v).value]);
    }
  }

  lemma BlobAsPlain(s: Store, max: nat, cold: map<string, Blob>)
    ensures WithPlain(s, max).(cold := cold) == WithPlain(s.(cold := cold), max)
  {
  }

  lemma HydrateAsPlain(types: Types, s: Store, max: nat, extId: string, blob: Blob)
    ensures Hydrate(types, WithPlain(s, max), extId, blob) == WithPlain(Hydrate(types, s, extId, blob), max)
    ensures Hydrate(types, s, extId, blob).policy == s.policy
  {
  }

  lemma AccessAsPlain(types: Types, s: Store, max: nat, t: TypeId, v: Value)
    requires Adapted(s, max)
    ensures Step(types, WithPlain(s, max), GetOrInsert(t, v)) == WithPlain(Step(types, s, GetOrInsert(t, v)), max)
    ensures Adapted(Step(types, s, GetOrInsert(t, v)), max)
  {
    var made := Materialise(types, EnsureRegistered(types, s, t), t);
    RegisteredAsPlain(types, s, max, t);
    MaterialiseAsPlain(types, EnsureRegistered(types, s, t), max, t);
    NotifyAsPlain(types, made, max, t);
    WriteAsPlain(Notify(types, made, t), max, t, v);
  }

  lemma StepAsPlain(types: Types, s: Store, max: nat, op: Op)
    requires Adapted(s, max)
    ensures Step(types, WithPlain(s, max), op) == WithPlain(Step(types, s, op), max)
    ensures Adapted(Step(types, s, op), max)
  {
    match op
    case GetMut(t, v) =>
      NotifyAsPlain(types, s, max, t);
      WriteAsPlain(Notify(types, s, t), max, t, v);
    case GetOrInsert(t, v) => AccessAsPlain(types, s, max, t, v);
    case InsertOp(t, v) => InsertAsPlain(types, s, max, t, v);
    case HydrateOp(extId, blob) => HydrateAsPlain(types, s, max, extId, blob);
    case EvictOp(_) =>
  }

  lemma {:induction false} RunAsPlain(types: Types, s: Store, max: nat, ops: seq<Op>)
    requires Adapted(s, max)
    ensures Run(types, WithPlain(s, max), ops) == WithPlain(Run(types, s, ops), max)
    ensures Adapted(Run(types, s, ops), max)
  {
    if ops != [] {
      RunAsPlain(types, s, max, ops[..|ops| - 1]);
      StepAsPlain(types, Run(types, s, ops[..|ops| - 1]), max, ops[|ops| - 1]);
    }
  }

  /** A fresh guard of each kind. */
  function FreshGuard(limits: Limits): Guard {
    Guard(limits, None, 0, 0, {}, "")
  }

  lemma BodyAsPlain(types: Types, s: Store, fallback: nat, policy: Option<string -> nat>, hook: string, ops: seq<Op>)
    ensures var max := AdaptiveBudget(fallback, policy, hook);
      var body := AfterBody(types, s, FreshGuard(Adaptive(fallback, policy)), hook, ops);
      && Adapted(body, max)
      && AfterBody(types, s, FreshGuard(Flat(max)), hook, ops) == WithPlain(body, max)
  {
    var max := AdaptiveBudget(fallback, policy, hook);
    var at := Attach(s, BeginHook(FreshGuard(Adaptive(fallback, policy)), hook));
    assert Attach(s, BeginHook(FreshGuard(Flat(max)), hook)) == WithPlain(at, max);
    RunAsPlain(types, at, max, ops);
  }

  /** The two guards decide alike, and by the threshold. */
  lemma DecidesAsPlain(g: Guard, max: nat)
    requires HasBudget(g, max)
    ensures BudgetExceeded(g) == BudgetExceeded(Plain(g, max)) == (g.standard >= max)
  {
  }

  lemma EventNameIsAll(types: Types, s: Store, e: RollbackEvent, f: RollbackEvent, t: TypeId)
    requires s.policy.None? && t != EVENT_LOG
    ensures SameBut(types, LogEvent(types, s, e), LogEvent(types, s, f), t)
  {
  }

  /** The storages agree on a type's view, the blobs and the registry. */
  ghost predicate SameBut(types: Types, x: Store, y: Store, t: TypeId) {
    View(types, x, t) == View(types, y, t) && x.cold == y.cold && x.registered == y.registered && x.extIds == y.extIds
  }

  lemma FinishAsPlain(types: Types, body: Store, max: nat, t: TypeId)
    requires Adapted(body, max) && t != EVENT_LOG
    ensures SameBut(types, Finish(types, body), Finish(types, WithPlain(body, max)), t)
  {
    var g := body.policy.value;
    DecidesAsPlain(g, max);
    assert Detach(WithPlain(body, max)) == Detach(body);
    EventNameIsAll(types, Restored(Detach(body), g.frame), HookEvent(g, true), HookEvent(Plain(g, max), true), t);
    EventNameIsAll(types, Detach(body), HookEvent(g, false), HookEvent(Plain(g, max), false), t);
  }

  /** For every storage, hook and operations: an adaptive guard without a budget policy ends the
      hook exactly as the plain guard with the fallback as its threshold, and one with a policy as
      the plain guard with the policy's budget for the hook: the same decision to roll back, and
      the same views, blobs and registry, the name in the logged event aside. */
  lemma AdaptiveIsPlain(types: Types, s: Store, fallback: nat, policy: Option<string -> nat>, hook: string, ops: seq<Op>, t: TypeId)
    requires t != EVENT_LOG
    ensures var max := match policy { case Some(budget) => budget(hook) case None => fallback };
      var adaptive, plain := FreshGuard(Adaptive(fallback, policy)), FreshGuard(Flat(max));
      var a, b := AfterBody(types, s, adaptive, hook, ops).policy, AfterBody(types, s, plain, hook, ops).policy;
      && a.Some? && b.Some?
      && BudgetExceeded(a.value) == BudgetExceeded(b.value) == (a.value.standard >= max)
      && SameBut(types, DrivenHook(types, s, adaptive, hook, ops), DrivenHook(types, s, plain, hook, ops), t)
  {
    var max := AdaptiveBudget(fallback, policy, hook);
    var body := AfterBody(types, s, FreshGuard(Adaptive(fallback, policy)), hook, ops);
    BodyAsPlain(types, s, fallback, policy, hook, ops);
    DecidesAsPlain(body.policy.value, max);
    FinishAsPlain(types, body, max, t);
  }
}
