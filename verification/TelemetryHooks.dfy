/**
 Telemetry under the hook driver: runs that mix plugin hooks with the telemetry
 plugin's own `after_prediction` hook, which drains the event log while a guard
 is attached and may be rolled back like any other.
 */
module TelemetryHooks {
  import opened Options
  import opened ExtensionModel
  import opened RollbackTheorems
  import opened TelemetryLedger
  import T = Telemetry

  // ---------------------------------------------------------------------------
  // The extension-id index
  // ---------------------------------------------------------------------------

  /** Each extension id leads to a type that has it: kept by all storage operations. */
  ghost predicate Indexed(types: Types, s: Store) {
    forall e :: e in s.extIds ==> types(s.extIds[e]).extId == e
  }

  lemma RegisterKeepsIndexed(types: Types, s: Store, t: TypeId)
    requires Indexed(types, s)
    ensures Indexed(types, EnsureRegistered(types, s, t))
  {
  }

  /** An access changes the index only by registering its type. */
  lemma AccessIndex(types: Types, s: Store, t: TypeId, v: Value)
    ensures Write(GetOrInsertDefault(types, s, t), t, v).extIds == EnsureRegistered(types, s, t).extIds
  {
  }

  lemma InsertIndex(types: Types, s: Store, t: TypeId, v: Value)
    ensures Insert(types, s, t, v).extIds == EnsureRegistered(types, s, t).extIds
  {
  }

  lemma StepKeepsIndexed(types: Types, s: Store, op: Op)
    requires Indexed(types, s)
    ensures Indexed(types, Step(types, s, op))
  {
    match op
    case GetOrInsert(t, v) =>
      AccessIndex(types, s, t, v);
      RegisterKeepsIndexed(types, s, t);
    case InsertOp(t, v) =>
      InsertIndex(types, s, t, v);
      RegisterKeepsIndexed(types, s, t);
    case _ =>
  }

  lemma {:induction false} RunKeepsIndexed(types: Types, s: Store, ops: seq<Op>)
    requires Indexed(types, s)
    ensures Indexed(types, Run(types, s, ops))
  {
    if ops != [] {
      RunKeepsIndexed(types, s, ops[..|ops| - 1]);
      StepKeepsIndexed(types, Run(types, s, ops[..|ops| - 1]), ops[|ops| - 1]);
    }
  }

  lemma LogEventKeepsIndexed(types: Types, s: Store, e: RollbackEvent)
    requires Indexed(types, s)
    ensures Indexed(types, LogEvent(types, s, e))
  {
    RegisterKeepsIndexed(types, s, EVENT_LOG);
    assert LogEvent(types, s, e).extIds == EnsureRegistered(types, s, EVENT_LOG).extIds;
  }

  lemma FinishKeepsIndexed(types: Types, s: Store)
    requires Indexed(types, s)
    ensures Indexed(types, Finish(types, s))
  {
    if s.policy.Some? {
      var g := s.policy.value;
      LogEventKeepsIndexed(types, Restored(Detach(s), g.frame), HookEvent(g, true));
      LogEventKeepsIndexed(types, Detach(s), HookEvent(g, false));
    }
  }

  lemma HookKeepsIndexed(types: Types, s: Store, g: Guard, hook: string, ops: seq<Op>)
    requires Indexed(types, s)
    ensures Indexed(types, DrivenHook(types, s, g, hook, ops))
  {
    RunKeepsIndexed(types, Attach(s, BeginHook(g, hook)), ops);
    FinishKeepsIndexed(types, AfterBody(types, s, g, hook, ops));
  }

  // ---------------------------------------------------------------------------
  // Operations that leave a type alone
  // ---------------------------------------------------------------------------

  /** The operation reaches neither the type's value nor its blob. */
  predicate Spares(types: Types, op: Op, t: TypeId) {
    match op
    case GetMut(u, _) => u != t
    case GetOrInsert(u, _) => u != t
    case InsertOp(u, _) => u != t && types(u).extId != types(t).extId
    case HydrateOp(extId, _) => extId != types(t).extId
    case EvictOp(u) => u != t
  }

  ghost predicate AllSpare(types: Types, ops: seq<Op>, t: TypeId) {
    forall i :: 0 <= i < |ops| ==> Spares(types, ops[i], t)
  }

  lemma InsertSpares(types: Types, s: Store, u: TypeId, v: Value, t: TypeId)
    requires u != t && types(u).extId != types(t).extId
    ensures View(types, Insert(types, s, u, v), t) == View(types, s, t)
  {
  }

  lemma HydrateSpares(types: Types, s: Store, extId: string, blob: Blob, t: TypeId)
    requires Indexed(types, s) && extId != types(t).extId
    ensures View(types, Hydrate(types, s, extId, blob), t) == View(types, s, t)
  {
  }

  lemma SparingStep(types: Types, s: Store, op: Op, t: TypeId)
    requires Indexed(types, s) && Spares(types, op, t)
    ensures View(types, Step(types, s, op), t) == View(types, s, t)
    ensures Notified(s, op) != Some(t)
  {
    match op
    case InsertOp(u, v) => InsertSpares(types, s, u, v, t);
    case HydrateOp(extId, blob) => HydrateSpares(types, s, extId, blob, t);
    case EvictOp(_) =>
    case _ => TrackedStep(types, s, op, t);
  }

  lemma NotNotifiedNotTouched(types: Types, s: Store, touches: seq<Snapshot>, op: Op, t: TypeId)
    requires t !in Ids(touches) && Notified(s, op) != Some(t)
    ensures t !in Ids(TouchesAfter(types, s, touches, op))
  {
    match Notified(s, op)
    case None =>
    case Some(u) => IdsSnoc(touches, Snapshot(u, View(types, s, u)));
  }

  lemma {:induction false} SparingRun(types: Types, s: Store, ops: seq<Op>, t: TypeId)
    requires Indexed(types, s) && AllSpare(types, ops, t)
    ensures View(types, Run(types, s, ops), t) == View(types, s, t)
    ensures t !in Ids(Touches(types, s, ops))
  {
    if ops != [] {
      var n := |ops| - 1;
      var before := Run(types, s, ops[..n]);
      SparingRun(types, s, ops[..n], t);
      RunKeepsIndexed(types, s, ops[..n]);
      SparingStep(types, before, ops[n], t);
      NotNotifiedNotTouched(types, before, Touches(types, s, ops[..n]), ops[n], t);
    }
  }

  lemma SparedIsNotKept(types: Types, s: Store, g: Guard, hook: string, ops: seq<Op>, t: TypeId)
    requires Indexed(types, s) && AllSpare(types, ops, t)
    ensures Lookup(KeptByHook(types, s, g, hook, ops), t) == None
  {
    var at := Attach(s, BeginHook(g, hook));
    SparingRun(types, at, ops, t);
    DistinctTouches(types, at, ops);
    KeptIsDistinct(types, g.limits, EffectiveHook(g, hook), Touches(types, at, ops));
    LookupIds(KeptByHook(types, s, g, hook, ops), t);
  }

  // ---------------------------------------------------------------------------
  // The event a hook logs
  // ---------------------------------------------------------------------------

  /** The event the guard logs when the driver finishes the hook. */
  function EventOf(types: Types, s: Store, g: Guard, hook: string, ops: seq<Op>): RollbackEvent {
    var attached := AfterBody(types, s, g, hook, ops).policy;
    var end := if attached.Some? then attached.value else g;
    HookEvent(end, BudgetExceeded(end))
  }

  /** What the log holds when the guard comes to append its event. */
  ghost function LogBase(types: Types, s: Store, g: Guard, hook: string, ops: seq<Op>): Value {
    var kept := Lookup(KeptByHook(types, s, g, hook, ops), EVENT_LOG);
    if ExactlyFull(types, s, g, hook, ops) && kept.Some? then kept.value
    else View(types, AfterBody(types, s, g, hook, ops), EVENT_LOG)
  }

  lemma EventFacts(types: Types, s: Store, g: Guard, hook: string, ops: seq<Op>)
    requires Valid(s)
    ensures var kept, full := KeptByHook(types, s, g, hook, ops), ExactlyFull(types, s, g, hook, ops);
      EventOf(types, s, g, hook, ops)
      == RollbackEvent(if g.limits.Adaptive? then hook else "", full,
                       Weight(types, g.limits, kept, Standard) + Weight(types, g.limits, kept, BestEffort), full)
  {
    GuardAtEndFacts(types, s, g, hook, ops);
  }

  lemma HookLogsItsEvent(types: Types, s: Store, g: Guard, hook: string, ops: seq<Op>)
    requires Valid(s) && LogBase(types, s, g, hook, ops).EventLog?
    ensures View(types, DrivenHook(types, s, g, hook, ops), EVENT_LOG)
         == EventLog(LogBase(types, s, g, hook, ops).events + [EventOf(types, s, g, hook, ops)])
  {
    EventFacts(types, s, g, hook, ops);
    DrivenHookLogsOneEvent(types, s, g, hook, ops);
  }

  // ---------------------------------------------------------------------------
  // The budget of a drain
  // ---------------------------------------------------------------------------

  /** Budget arithmetic of an `after_prediction` hook: `used` and `best` are the weights kept
      before the drain, `log` and `stats` those of the two values it touches. */
  datatype Budget = Budget(used: nat, best: nat, log: nat, stats: nat, max: nat, maxBest: Option<nat>) {
    predicate KeepsLog() { used + log <= max }

    function AfterLog(): nat { if KeepsLog() then used + log else used }

    predicate KeepsStats() { AfterLog() + stats <= max }

    function AfterStats(): nat { if KeepsStats() then AfterLog() + stats else AfterLog() }

    /** The driver rolls the hook back. */
    predicate Full() { AfterStats() == max || maxBest == Some(best) }

    function Fate(): Fate { Drained(Full() && KeepsLog(), Full() && KeepsStats()) }
  }

  ghost function BudgetOf(types: Types, s: Store, g: Guard, hook: string, earlier: seq<Op>): Budget {
    var kept := KeptByHook(types, s, g, hook, earlier);
    Budget(
      Weight(types, g.limits, kept, Standard), Weight(types, g.limits, kept, BestEffort),
      types(EVENT_LOG).weight(View(types, s, EVENT_LOG)), types(TELEMETRY).weight(View(types, s, TELEMETRY)),
      MaxOf(g.limits, EffectiveHook(g, hook), Standard),
      if g.limits.Tiered? then Some(g.limits.maxBestEffort) else None)
  }

  /** The snapshot strategies of the log and of the counters, as their types declare them. */
  predicate Declared(types: Types) {
    types(EVENT_LOG).strategy.FullClone? && types(TELEMETRY).strategy.FullClone?
  }

  lemma KeptNext(types: Types, limits: Limits, hook: string, touches: seq<Snapshot>, x: Snapshot)
    requires types(x.id).strategy.FullClone?
    ensures var kept := Kept(types, limits, hook, touches);
      Kept(types, limits, hook, touches + [x])
      == if Weight(types, limits, kept, Standard) + types(x.id).weight(x.value) <= MaxOf(limits, hook, Standard)
         then kept + [x] else kept
  {
    KeptSnoc(types, limits, hook, touches, x);
  }

  lemma WeightsNext(types: Types, limits: Limits, kept: seq<Snapshot>, x: Snapshot)
    requires types(x.id).strategy.FullClone?
    ensures Weight(types, limits, kept + [x], Standard) == Weight(types, limits, kept, Standard) + types(x.id).weight(x.value)
    ensures Weight(types, limits, kept + [x], BestEffort) == Weight(types, limits, kept, BestEffort)
  {
    WeightSnoc(types, limits, kept, x, Standard);
    WeightSnoc(types, limits, kept, x, BestEffort);
  }

  /** One kept touch, or not, as a list. */
  function Also(kept: seq<Snapshot>, keeps: bool, x: Snapshot): seq<Snapshot> {
    if keeps then kept + [x] else kept
  }

  lemma AlsoWeights(types: Types, limits: Limits, kept: seq<Snapshot>, keeps: bool, x: Snapshot)
    requires types(x.id).strategy.FullClone?
    ensures Weight(types, limits, Also(kept, keeps, x), Standard)
         == Weight(types, limits, kept, Standard) + if keeps then types(x.id).weight(x.value) else 0
    ensures Weight(types, limits, Also(kept, keeps, x), BestEffort) == Weight(types, limits, kept, BestEffort)
  {
    WeightsNext(types, limits, kept, x);
  }

  lemma AlsoLookup(kept: seq<Snapshot>, keeps: bool, x: Snapshot, t: TypeId)
    ensures Lookup(Also(kept, keeps, x), t) == if keeps && x.id == t then Some(x.value) else Lookup(kept, t)
  {
    LookupSnoc(kept, x, t);
  }

  // ---------------------------------------------------------------------------
  // The body of a drain
  // ---------------------------------------------------------------------------

  /** Accesses through the notifying accessors, to types other than the log and the counters. */
  ghost predicate Elsewhere(earlier: seq<Op>) {
    forall i :: 0 <= i < |earlier| ==> Tracked(earlier[i]) && earlier[i].t != EVENT_LOG && earlier[i].t != TELEMETRY
  }

  lemma {:induction false} ElsewhereUntouched(types: Types, s: Store, earlier: seq<Op>, t: TypeId)
    requires Elsewhere(earlier) && (t == EVENT_LOG || t == TELEMETRY)
    ensures t !in Ids(Touches(types, s, earlier))
    ensures View(types, Run(types, s, earlier), t) == View(types, s, t)
  {
    if earlier != [] {
      var n := |earlier| - 1;
      var before := Run(types, s, earlier[..n]);
      ElsewhereUntouched(types, s, earlier[..n], t);
      TrackedStep(types, before, earlier[n], t);
      NotNotifiedNotTouched(types, before, Touches(types, s, earlier[..n]), earlier[n], t);
    }
  }

  function DrainOps(earlier: seq<Op>, drained: Value, counted: Value): seq<Op> {
    earlier + [GetOrInsert(EVENT_LOG, drained)] + [GetOrInsert(TELEMETRY, counted)]
  }

  function LogTouch(types: Types, s: Store): Snapshot { Snapshot(EVENT_LOG, View(types, s, EVENT_LOG)) }

  function StatsTouch(types: Types, s: Store): Snapshot { Snapshot(TELEMETRY, View(types, s, TELEMETRY)) }

  lemma DrainTouches(types: Types, s: Store, earlier: seq<Op>, drained: Value, counted: Value)
    requires Elsewhere(earlier)
    ensures Touches(types, s, DrainOps(earlier, drained, counted))
         == Touches(types, s, earlier) + [LogTouch(types, s)] + [StatsTouch(types, s)]
  {
    var before := Run(types, s, earlier);
    ElsewhereUntouched(types, s, earlier, EVENT_LOG);
    ElsewhereUntouched(types, s, earlier, TELEMETRY);
    RunSnoc(types, s, earlier, GetOrInsert(EVENT_LOG, drained));
    RunSnoc(types, s, earlier + [GetOrInsert(EVENT_LOG, drained)], GetOrInsert(TELEMETRY, counted));
    TrackedStep(types, before, GetOrInsert(EVENT_LOG, drained), TELEMETRY);
    IdsSnoc(Touches(types, s, earlier), LogTouch(types, s));
  }

  lemma DrainViews(types: Types, s: Store, earlier: seq<Op>, drained: Value, counted: Value)
    ensures var body := Run(types, s, DrainOps(earlier, drained, counted));
      View(types, body, EVENT_LOG) == drained && View(types, body, TELEMETRY) == counted
  {
    var before := Run(types, s, earlier);
    RunSnoc(types, s, earlier, GetOrInsert(EVENT_LOG, drained));
    RunSnoc(types, s, earlier + [GetOrInsert(EVENT_LOG, drained)], GetOrInsert(TELEMETRY, counted));
    TrackedStep(types, Step(types, before, GetOrInsert(EVENT_LOG, drained)), GetOrInsert(TELEMETRY, counted), EVENT_LOG);
  }

  /** What the guard has kept at the end of a drain. */
  lemma DrainKept(types: Types, s: Store, g: Guard, hook: string, earlier: seq<Op>, drained: Value, counted: Value)
    requires Declared(types) && Elsewhere(earlier)
    ensures var b := BudgetOf(types, s, g, hook, earlier);
      KeptByHook(types, s, g, hook, DrainOps(earlier, drained, counted))
      == Also(Also(KeptByHook(types, s, g, hook, earlier), b.KeepsLog(), LogTouch(types, s)), b.KeepsStats(), StatsTouch(types, s))
  {
    var at := Attach(s, BeginHook(g, hook));
    assert LogTouch(types, at) == LogTouch(types, s) && StatsTouch(types, at) == StatsTouch(types, s);
    DrainTouches(types, at, earlier, drained, counted);
    var touches := Touches(types, at, earlier);
    var kept := KeptByHook(types, s, g, hook, earlier);
    KeptNext(types, g.limits, EffectiveHook(g, hook), touches, LogTouch(types, s));
    WeightsNext(types, g.limits, kept, LogTouch(types, s));
    KeptNext(types, g.limits, EffectiveHook(g, hook), touches + [LogTouch(types, s)], StatsTouch(types, s));
  }

  lemma DrainFull(types: Types, s: Store, g: Guard, hook: string, earlier: seq<Op>, drained: Value, counted: Value)
    requires Declared(types) && Elsewhere(earlier)
    ensures ExactlyFull(types, s, g, hook, DrainOps(earlier, drained, counted)) == BudgetOf(types, s, g, hook, earlier).Full()
  {
    var b, kept := BudgetOf(types, s, g, hook, earlier), KeptByHook(types, s, g, hook, earlier);
    DrainKept(types, s, g, hook, earlier, drained, counted);
    AlsoWeights(types, g.limits, kept, b.KeepsLog(), LogTouch(types, s));
    AlsoWeights(types, g.limits, Also(kept, b.KeepsLog(), LogTouch(types, s)), b.KeepsStats(), StatsTouch(types, s));
  }

  lemma EarlierNotKept(types: Types, s: Store, g: Guard, hook: string, earlier: seq<Op>, t: TypeId)
    requires Elsewhere(earlier) && (t == EVENT_LOG || t == TELEMETRY)
    ensures Lookup(KeptByHook(types, s, g, hook, earlier), t) == None
  {
    var at := Attach(s, BeginHook(g, hook));
    ElsewhereUntouched(types, at, earlier, t);
    DistinctTouches(types, at, earlier);
    KeptIsDistinct(types, g.limits, EffectiveHook(g, hook), Touches(types, at, earlier));
    LookupIds(KeptByHook(types, s, g, hook, earlier), t);
  }

  lemma DrainLookups(types: Types, s: Store, g: Guard, hook: string, earlier: seq<Op>, drained: Value, counted: Value)
    requires Declared(types) && Elsewhere(earlier)
    ensures var b := BudgetOf(types, s, g, hook, earlier);
      var all := KeptByHook(types, s, g, hook, DrainOps(earlier, drained, counted));
      && Lookup(all, EVENT_LOG) == (if b.KeepsLog() then Some(View(types, s, EVENT_LOG)) else None)
      && Lookup(all, TELEMETRY) == (if b.KeepsStats() then Some(View(types, s, TELEMETRY)) else None)
  {
    var b, kept := BudgetOf(types, s, g, hook, earlier), KeptByHook(types, s, g, hook, earlier);
    var log, stats := LogTouch(types, s), StatsTouch(types, s);
    DrainKept(types, s, g, hook, earlier, drained, counted);
    EarlierNotKept(types, s, g, hook, earlier, EVENT_LOG);
    EarlierNotKept(types, s, g, hook, earlier, TELEMETRY);
    AlsoLookup(kept, b.KeepsLog(), log, EVENT_LOG);
    AlsoLookup(kept, b.KeepsLog(), log, TELEMETRY);
    AlsoLookup(Also(kept, b.KeepsLog(), log), b.KeepsStats(), stats, EVENT_LOG);
    AlsoLookup(Also(kept, b.KeepsLog(), log), b.KeepsStats(), stats, TELEMETRY);
  }

  lemma DrainedStats(types: Types, s: Store, g: Guard, hook: string, earlier: seq<Op>, drained: Value, counted: Value)
    requires Valid(s) && Declared(types) && Elsewhere(earlier)
    ensures View(types, DrivenHook(types, s, g, hook, DrainOps(earlier, drained, counted)), TELEMETRY)
         == if BudgetOf(types, s, g, hook, earlier).Fate().statsBack then View(types, s, TELEMETRY) else counted
  {
    var ops := DrainOps(earlier, drained, counted);
    DrainLookups(types, s, g, hook, earlier, drained, counted);
    DrainFull(types, s, g, hook, earlier, drained, counted);
    DrainViews(types, Attach(s, BeginHook(g, hook)), earlier, drained, counted);
    DriverRollsBackExactlyWhenFull(types, s, g, hook, ops);
    RollbackOutcome(types, s, g, hook, ops, TELEMETRY);
    CommitOutcome(types, s, g, hook, ops, TELEMETRY);
  }

  lemma DrainedBase(types: Types, s: Store, g: Guard, hook: string, earlier: seq<Op>, drained: Value, counted: Value)
    requires Declared(types) && Elsewhere(earlier)
    ensures LogBase(types, s, g, hook, DrainOps(earlier, drained, counted))
         == if BudgetOf(types, s, g, hook, earlier).Fate().logBack then View(types, s, EVENT_LOG) else drained
  {
    DrainLookups(types, s, g, hook, earlier, drained, counted);
    DrainFull(types, s, g, hook, earlier, drained, counted);
    DrainViews(types, Attach(s, BeginHook(g, hook)), earlier, drained, counted);
  }

  // ---------------------------------------------------------------------------
  // Runs of hooks and drains
  // ---------------------------------------------------------------------------

  /** A plugin's hook, or the telemetry plugin's `after_prediction` hook. */
  datatype Act = Plugin(g: Guard, hook: string, ops: seq<Op>) | Prediction(g: Guard, hook: string)

  function OpsOf(types: Types, s: Store, act: Act): seq<Op> {
    match act
    case Plugin(_, _, ops) => ops
    case Prediction(_, _) => T.PredictionOps(types, s)
  }

  function AfterAct(types: Types, s: Store, act: Act): Store {
    DrivenHook(types, s, act.g, act.hook, OpsOf(types, s, act))
  }

  /** Plugins other than the telemetry plugin leave its log and counters alone. */
  ghost predicate Proper(types: Types, act: Act) {
    act.Plugin? ==> AllSpare(types, act.ops, EVENT_LOG) && AllSpare(types, act.ops, TELEMETRY)
  }

  /** A consistent storage whose log and counters have their types. */
  ghost predicate Sound(types: Types, s: Store) {
    && Valid(s) && Indexed(types, s)
    && View(types, s, EVENT_LOG).EventLog? && View(types, s, TELEMETRY).TelemetryStats?
  }

  function BookOf(types: Types, s: Store): Book {
    var stats := View(types, s, TELEMETRY);
    Book(T.Events(View(types, s, EVENT_LOG)), if stats.TelemetryStats? then stats.stats else T.EMPTY)
  }

  /** What the act does to the books, from the weights the guard sees. */
  ghost function FateOf(types: Types, s: Store, act: Act): Fate {
    if act.Plugin? then Untouched else BudgetOf(types, s, act.g, act.hook, T.ConflictOps(types, s)).Fate()
  }

  ghost function EntryOf(types: Types, s: Store, act: Act): Entry {
    Entry(FateOf(types, s, act), EventOf(types, s, act.g, act.hook, OpsOf(types, s, act)))
  }

  lemma PluginBase(types: Types, s: Store, act: Act)
    requires Sound(types, s) && Proper(types, act) && act.Plugin?
    ensures LogBase(types, s, act.g, act.hook, act.ops) == View(types, s, EVENT_LOG)
  {
    SparedIsNotKept(types, s, act.g, act.hook, act.ops, EVENT_LOG);
    SparingRun(types, Attach(s, BeginHook(act.g, act.hook)), act.ops, EVENT_LOG);
  }

  lemma PluginStats(types: Types, s: Store, act: Act)
    requires Sound(types, s) && Proper(types, act) && act.Plugin?
    ensures View(types, AfterAct(types, s, act), TELEMETRY) == View(types, s, TELEMETRY)
  {
    SparedIsNotKept(types, s, act.g, act.hook, act.ops, TELEMETRY);
    SparingRun(types, Attach(s, BeginHook(act.g, act.hook)), act.ops, TELEMETRY);
    DriverRollsBackExactlyWhenFull(types, s, act.g, act.hook, act.ops);
    RollbackOutcome(types, s, act.g, act.hook, act.ops, TELEMETRY);
    CommitOutcome(types, s, act.g, act.hook, act.ops, TELEMETRY);
  }

  lemma ActStaysConsistent(types: Types, s: Store, act: Act)
    requires Valid(s) && Indexed(types, s)
    ensures Valid(AfterAct(types, s, act)) && Indexed(types, AfterAct(types, s, act))
  {
    DrivenHookKeepsValid(types, s, act.g, act.hook, OpsOf(types, s, act));
    HookKeepsIndexed(types, s, act.g, act.hook, OpsOf(types, s, act));
  }

  lemma PluginBooks(types: Types, s: Store, act: Act)
    requires Sound(types, s) && Proper(types, act) && act.Plugin?
    ensures Sound(types, AfterAct(types, s, act))
    ensures BookOf(types, AfterAct(types, s, act)) == StepBook(BookOf(types, s), EntryOf(types, s, act))
  {
    ActStaysConsistent(types, s, act);
    PluginBase(types, s, act);
    PluginStats(types, s, act);
    HookLogsItsEvent(types, s, act.g, act.hook, act.ops);
  }

  lemma PredictionBooks(types: Types, s: Store, act: Act)
    requires Sound(types, s) && Declared(types) && act.Prediction?
    ensures Sound(types, AfterAct(types, s, act))
    ensures BookOf(types, AfterAct(types, s, act)) == StepBook(BookOf(types, s), EntryOf(types, s, act))
  {
    var book := BookOf(types, s);
    var earlier, counted := T.ConflictOps(types, s), TelemetryStats(T.AbsorbAll(book.stats, book.log));
    assert T.PredictionOps(types, s) == DrainOps(earlier, EventLog([]), counted);
    ActStaysConsistent(types, s, act);
    DrainedBase(types, s, act.g, act.hook, earlier, EventLog([]), counted);
    DrainedStats(types, s, act.g, act.hook, earlier, EventLog([]), counted);
    HookLogsItsEvent(types, s, act.g, act.hook, T.PredictionOps(types, s));
  }

  /** One act on the books, and the event it logs: a rollback if and only if it reports an exceeded budget. */
  lemma ActBooks(types: Types, s: Store, act: Act)
    requires Sound(types, s) && Declared(types) && Proper(types, act)
    ensures Sound(types, AfterAct(types, s, act))
    ensures BookOf(types, AfterAct(types, s, act)) == StepBook(BookOf(types, s), EntryOf(types, s, act))
    ensures var e := EntryOf(types, s, act).event;
      e.wasRollback == e.budgetExceeded == ExactlyFull(types, s, act.g, act.hook, OpsOf(types, s, act))
  {
    if act.Plugin? { PluginBooks(types, s, act); } else { PredictionBooks(types, s, act); }
    EventFacts(types, s, act.g, act.hook, OpsOf(types, s, act));
  }

  /** One step of a run: the act, the storage it leaves, and what it did to the books. */
  ghost predicate Goes(types: Types, s: Store, act: Act, s': Store, e: Entry) {
    Proper(types, act) && s' == AfterAct(types, s, act) && e == EntryOf(types, s, act)
  }

  /** Successive states, each related to the next by an act and its entry. */
  ghost predicate Chain<S, A, E>(goes: (S, A, S, E) -> bool, acts: seq<A>, states: seq<S>, entries: seq<E>) {
    && |states| == |acts| + 1 && |entries| == |acts|
    && forall i :: 0 <= i < |acts| ==> goes(states[i], acts[i], states[i + 1], entries[i])
  }

  lemma ChainNext<S, A, E>(goes: (S, A, S, E) -> bool, acts: seq<A>, states: seq<S>, entries: seq<E>, act: A, s': S, e: E)
    requires Chain(goes, acts, states, entries) && goes(states[|acts|], act, s', e)
    ensures Chain(goes, acts + [act], states + [s'], entries + [e])
  {
  }

  ghost function Going(types: Types): (Store, Act, Store, Entry) -> bool {
    (s, act, s', e) => Goes(types, s, act, s', e)
  }

  /** A run: a sound storage, then the storage after each act, with the acts' entries. */
  ghost predicate IsRun(types: Types, acts: seq<Act>, states: seq<Store>, entries: seq<Entry>) {
    Declared(types) && Chain(Going(types), acts, states, entries) && Sound(types, states[0])
  }

  lemma RunExtends(types: Types, acts: seq<Act>, states: seq<Store>, entries: seq<Entry>, act: Act) returns (s': Store, e: Entry)
    requires IsRun(types, acts, states, entries) && Proper(types, act)
    ensures IsRun(types, acts + [act], states + [s'], entries + [e])
  {
    s', e := AfterAct(types, states[|acts|], act), EntryOf(types, states[|acts|], act);
    assert Going(types)(states[|acts|], act, s', e);
    ChainNext(Going(types), acts, states, entries, act, s', e);
  }

  lemma FrontAndLast<A>(acts: seq<A>)
    requires acts != []
    ensures acts[..|acts| - 1] + [acts[|acts| - 1]] == acts
  {
  }

  /** Any acts make a run from any sound storage. */
  lemma {:induction false} RunExists(types: Types, s: Store, acts: seq<Act>) returns (states: seq<Store>, entries: seq<Entry>)
    requires Declared(types) && Sound(types, s) && forall i :: 0 <= i < |acts| ==> Proper(types, acts[i])
    ensures IsRun(types, acts, states, entries) && states[0] == s
  {
    states, entries := [s], [];
    if acts != [] {
      var n := |acts| - 1;
      states, entries := RunExists(types, s, acts[..n]);
      var s', e := RunExtends(types, acts[..n], states, entries, acts[n]);
      FrontAndLast(acts);
      states, entries := states + [s'], entries + [e];
    }
  }

  lemma StepBooks(types: Types, s: Store, act: Act, s': Store, e: Entry)
    requires Sound(types, s) && Declared(types) && Goes(types, s, act, s', e)
    ensures Sound(types, s') && BookOf(types, s') == StepBook(BookOf(types, s), e)
    ensures e.event.wasRollback <==> e.event.budgetExceeded
  {
    ActBooks(types, s, act);
  }

  lemma {:induction false} RunIsSound(types: Types, acts: seq<Act>, states: seq<Store>, entries: seq<Entry>, n: nat)
    requires IsRun(types, acts, states, entries) && n <= |acts|
    ensures Sound(types, states[n])
  {
    if n > 0 {
      RunIsSound(types, acts, states, entries, n - 1);
      assert Going(types)(states[n - 1], acts[n - 1], states[n - 1 + 1], entries[n - 1]);
      StepBooks(types, states[n - 1], acts[n - 1], states[n], entries[n - 1]);
    }
  }

  function BooksOf(types: Types, states: seq<Store>): (books: seq<Book>)
    ensures |books| == |states| && forall i :: 0 <= i < |states| ==> books[i] == BookOf(types, states[i])
  {
    if states == [] then [] else BooksOf(types, states[..|states| - 1]) + [BookOf(types, states[|states| - 1])]
  }

  /** The run on the books: what `TelemetryLedger` is about. */
  lemma RunOnBooks(types: Types, acts: seq<Act>, states: seq<Store>, entries: seq<Entry>)
    requires IsRun(types, acts, states, entries)
    ensures IsBookRun(BooksOf(types, states), entries) && DrivenEntries(entries)
  {
    forall i | 0 <= i < |acts|
      ensures BookOf(types, states[i + 1]) == StepBook(BookOf(types, states[i]), entries[i])
      ensures entries[i].event.wasRollback <==> entries[i].event.budgetExceeded
    {
      RunIsSound(types, acts, states, entries, i);
      assert Going(types)(states[i], acts[i], states[i + 1], entries[i]);
      StepBooks(types, states[i], acts[i], states[i + 1], entries[i]);
    }
  }

  /** At every point of every run the log and the counters in storage are the books kept by its entries. */
  lemma RunKeepsBooks(types: Types, acts: seq<Act>, states: seq<Store>, entries: seq<Entry>, n: nat)
    requires IsRun(types, acts, states, entries) && n <= |acts|
    ensures Sound(types, states[n]) && BookOf(types, states[n]) == RunBook(BookOf(types, states[0]), entries[..n])
    ensures DrivenEntries(entries[..n])
  {
    RunIsSound(types, acts, states, entries, n);
    RunOnBooks(types, acts, states, entries);
    BooksAreRun(BooksOf(types, states), entries, n);
  }

  /** At every point of every run of plugin hooks and drains that starts that way: each event in
      the log reports a rollback exactly if it reports an exceeded budget, and the counters
      show no restoration, in total or in any row. */
  lemma RestoredCountStaysZero(types: Types, acts: seq<Act>, states: seq<Store>, entries: seq<Entry>, n: nat)
    requires IsRun(types, acts, states, entries) && n <= |acts|
    requires AllDriven(View(types, states[0], EVENT_LOG).events) && NoRestoration(View(types, states[0], TELEMETRY).stats)
    ensures Sound(types, states[n])
    ensures AllDriven(View(types, states[n], EVENT_LOG).events) && NoRestoration(View(types, states[n], TELEMETRY).stats)
  {
    RunKeepsBooks(types, acts, states, entries, n);
    BookStaysRestorationless(BookOf(types, states[0]), entries[..n]);
  }

  // ---------------------------------------------------------------------------
  // Every event once
  // ---------------------------------------------------------------------------

  /** The guard's budget splits the drain: it is rolled back with a snapshot of only one of
      the two values, and there are events to drain. */
  ghost predicate DrainSplits(types: Types, s: Store, act: Act) {
    Splits(FateOf(types, s, act), |BookOf(types, s).log|)
  }

  ghost predicate NoDrainSplits(types: Types, acts: seq<Act>, states: seq<Store>)
    requires |states| == |acts| + 1
  {
    forall i :: 0 <= i < |acts| ==> !DrainSplits(types, states[i], acts[i])
  }

  /** The tracked number of pending events is the length of the log. */
  lemma PendingIsLog(types: Types, acts: seq<Act>, states: seq<Store>, entries: seq<Entry>, n: nat)
    requires IsRun(types, acts, states, entries) && n <= |acts|
    ensures |RunTrack(Start(|BookOf(types, states[0]).log|), entries[..n]).pending| == |BookOf(types, states[n]).log|
  {
    RunKeepsBooks(types, acts, states, entries, n);
    RunMatches(BookOf(types, states[0]), entries[..n]);
  }

  lemma SplitsAgree(types: Types, acts: seq<Act>, states: seq<Store>, entries: seq<Entry>)
    requires IsRun(types, acts, states, entries)
    ensures NoDrainSplits(types, acts, states) <==> NeverSplits(Start(|BookOf(types, states[0]).log|), entries)
  {
    var start := Start(|BookOf(types, states[0]).log|);
    forall i | 0 <= i < |acts|
      ensures DrainSplits(types, states[i], acts[i]) <==> Splits(entries[i].fate, |RunTrack(start, entries[..i]).pending|)
    {
      assert Going(types)(states[i], acts[i], states[i + 1], entries[i]);
      assert entries[i] == EntryOf(types, states[i], acts[i]);
      PendingIsLog(types, acts, states, entries, i);
    }
  }

  /** Over every run of hooks and drains: each event ever logged is counted once or still in
      the log, in order, if and only if no drain splits.  The numbers speak of the storage:
      its log holds the pending events and its counters have absorbed the counted ones. */
  lemma EveryEventBookedOnceIff(types: Types, acts: seq<Act>, states: seq<Store>, entries: seq<Entry>)
    requires IsRun(types, acts, states, entries)
    ensures var start, end := BookOf(types, states[0]), BookOf(types, states[|acts|]);
      var t := RunTrack(Start(|start.log|), entries);
      && Matches(start.stats, start.log + EventsOf(entries), t, end)
      && (Exact(t) <==> NoDrainSplits(types, acts, states))
  {
    RunKeepsBooks(types, acts, states, entries, |acts|);
    assert entries[..|acts|] == entries;
    RunMatches(BookOf(types, states[0]), entries);
    ExactIffNeverSplits(|BookOf(types, states[0]).log|, entries);
    SplitsAgree(types, acts, states, entries);
  }

  /** If no drain splits, the counters in storage, once they absorb the log, report the whole stream. */
  lemma StorageReportsEveryEvent(types: Types, acts: seq<Act>, states: seq<Store>, entries: seq<Entry>)
    requires IsRun(types, acts, states, entries) && NoDrainSplits(types, acts, states)
    ensures var start, end := BookOf(types, states[0]), BookOf(types, states[|acts|]);
      T.AbsorbAll(end.stats, end.log) == T.AbsorbAll(start.stats, start.log + EventsOf(entries))
  {
    RunKeepsBooks(types, acts, states, entries, |acts|);
    assert entries[..|acts|] == entries;
    SplitsAgree(types, acts, states, entries);
    UnsplitBooksReportAll(BookOf(types, states[0]), entries);
  }

  // ---------------------------------------------------------------------------
  // Drains that split
  // ---------------------------------------------------------------------------

  /** A fresh `UndoFrameGuard`. */
  function FlatGuard(max: nat): Guard {
    Guard(Flat(max), None, 0, 0, {}, "")
  }

  function Drain(max: nat): Act {
    Prediction(FlatGuard(max), "after_prediction")
  }

  /** No superseded transitions wait, and their log is critical, as its type declares. */
  predicate Quiet(types: Types, s: Store) {
    types(TRACE_LOG).strategy.CriticalFullClone? && T.Entries(View(types, s, TRACE_LOG)) == []
  }

  function LogWeight(types: Types, s: Store): nat {
    types(EVENT_LOG).weight(View(types, s, EVENT_LOG))
  }

  function StatsWeight(types: Types, s: Store): nat {
    types(TELEMETRY).weight(View(types, s, TELEMETRY))
  }

  lemma QuietTouches(types: Types, s: Store)
    requires Quiet(types, s)
    ensures Touches(types, s, T.ConflictOps(types, s)) == [] + [Snapshot(TRACE_LOG, View(types, s, TRACE_LOG))]
  {
    var op := GetOrInsert(TRACE_LOG, T.EmptiedTraces(View(types, s, TRACE_LOG)));
    assert [] + [op] == [op];
    RunSnoc(types, s, [], op);
  }

  lemma CriticalIsFree(types: Types, limits: Limits, hook: string, x: Snapshot)
    requires types(x.id).strategy.CriticalFullClone?
    ensures var kept := Kept(types, limits, hook, [] + [x]);
      Weight(types, limits, kept, Standard) == 0 && Weight(types, limits, kept, BestEffort) == 0
  {
    KeptSnoc(types, limits, hook, [], x);
    WeightSnoc(types, limits, [], x, Standard);
    WeightSnoc(types, limits, [], x, BestEffort);
  }

  /** Without conflicts the drain has the whole budget to itself. */
  lemma QuietBudget(types: Types, s: Store, max: nat)
    requires Quiet(types, s)
    ensures BudgetOf(types, s, FlatGuard(max), "after_prediction", T.ConflictOps(types, s))
         == Budget(0, 0, LogWeight(types, s), StatsWeight(types, s), max, None)
  {
    var at := Attach(s, BeginHook(FlatGuard(max), "after_prediction"));
    assert View(types, at, TRACE_LOG) == View(types, s, TRACE_LOG);
    QuietTouches(types, at);
    assert T.ConflictOps(types, at) == T.ConflictOps(types, s);
    CriticalIsFree(types, Flat(max), "", Snapshot(TRACE_LOG, View(types, s, TRACE_LOG)));
  }

  lemma {:induction false} LastWriteSeen(types: Types, s: Store, op: Op, later: seq<Op>, t: TypeId)
    requires op.GetOrInsert? && op.t == t
    requires forall i :: 0 <= i < |later| ==> later[i].GetOrInsert? && later[i].t != t
    ensures View(types, Run(types, s, [op] + later), t) == op.v
  {
    if later == [] {
      assert [] + [op] == [op] + later;
      RunSnoc(types, s, [], op);
    } else {
      var n := |later| - 1;
      LastWriteSeen(types, s, op, later[..n], t);
      assert [op] + later == ([op] + later[..n]) + [later[n]];
      RunSnoc(types, s, [op] + later[..n], later[n]);
      TrackedStep(types, Run(types, s, [op] + later[..n]), later[n], t);
    }
  }

  /** The four values `after_prediction` works on have their types. */
  predicate Typed(types: Types, s: Store) {
    && View(types, s, TRACE_LOG).TraceLog? && View(types, s, CONFLICTS).ConflictSummary?
    && View(types, s, EVENT_LOG).EventLog? && View(types, s, TELEMETRY).TelemetryStats?
  }

  /** What `after_prediction` leaves: both logs empty, and the counters with the drained events absorbed. */
  lemma PredictionDrains(types: Types, s: Store)
    requires Typed(types, s)
    ensures var after := Run(types, s, T.PredictionOps(types, s));
      && View(types, after, TRACE_LOG) == TraceLog([])
      && View(types, after, EVENT_LOG) == EventLog([])
      && View(types, after, TELEMETRY)
         == TelemetryStats(T.AbsorbAll(View(types, s, TELEMETRY).stats, View(types, s, EVENT_LOG).events))
  {
    var ops := T.PredictionOps(types, s);
    var counted := T.Counted(View(types, s, TELEMETRY), View(types, s, EVENT_LOG).events);
    assert ops == DrainOps(T.ConflictOps(types, s), EventLog([]), counted);
    DrainViews(types, s, T.ConflictOps(types, s), EventLog([]), counted);
    assert ops == [ops[0]] + ops[1..];
    LastWriteSeen(types, s, ops[0], ops[1..], TRACE_LOG);
  }

  /** And the conflict summary brought up to date if there were superseded transitions. */
  lemma PredictionSummarises(types: Types, s: Store)
    requires Typed(types, s)
    ensures var entries, summary := View(types, s, TRACE_LOG).preemptedBy, View(types, s, CONFLICTS);
      View(types, Run(types, s, T.PredictionOps(types, s)), CONFLICTS)
      == if entries == [] then summary
         else ConflictSummary(summary.total + |entries|, |set e | e in entries|, Some(entries[|entries| - 1]))
  {
    var ops := T.PredictionOps(types, s);
    if View(types, s, TRACE_LOG).preemptedBy == [] {
      NoneWrites(types, s, ops, CONFLICTS);
    } else {
      var front, rest := [ops[0]], ops[1..];
      assert ops == front + rest && rest == [rest[0]] + rest[1..];
      LastWriteSeen(types, Run(types, s, front), rest[0], rest[1..], CONFLICTS);
      RunAppend(types, s, front, rest);
    }
  }

  lemma {:induction false} RunAppend(types: Types, s: Store, a: seq<Op>, b: seq<Op>)
    ensures Run(types, s, a + b) == Run(types, Run(types, s, a), b)
    decreases |b|
  {
    if b == [] {
      assert a + b == a;
    } else {
      var n := |b| - 1;
      RunAppend(types, s, a, b[..n]);
      assert a + b == (a + b[..n]) + [b[n]];
      RunSnoc(types, s, a + b[..n], b[n]);
    }
  }

  lemma {:induction false} NoneWrites(types: Types, s: Store, ops: seq<Op>, t: TypeId)
    requires forall i :: 0 <= i < |ops| ==> ops[i].GetOrInsert? && ops[i].t != t
    ensures View(types, Run(types, s, ops), t) == View(types, s, t)
  {
    if ops != [] {
      var n := |ops| - 1;
      NoneWrites(types, s, ops[..n], t);
      TrackedStep(types, Run(types, s, ops[..n]), ops[n], t);
    }
  }

  lemma DrainEmptiesTraces(types: Types, s: Store, at: Store)
    requires T.Entries(View(types, s, TRACE_LOG)) == []
    ensures T.Entries(View(types, Run(types, at, T.PredictionOps(types, s)), TRACE_LOG)) == []
    ensures forall i :: 0 <= i < |T.PredictionOps(types, s)| ==> Tracked(T.PredictionOps(types, s)[i])
  {
    var ops := T.PredictionOps(types, s);
    assert ops == [ops[0]] + ops[1..];
    LastWriteSeen(types, at, ops[0], ops[1..], TRACE_LOG);
  }

  lemma DrainStaysQuiet(types: Types, s: Store, act: Act)
    requires Valid(s) && Quiet(types, s) && act.Prediction?
    ensures Quiet(types, AfterAct(types, s, act))
  {
    var ops := T.PredictionOps(types, s);
    DrainEmptiesTraces(types, s, Attach(s, BeginHook(act.g, act.hook)));
    DriverRollsBackExactlyWhenFull(types, s, act.g, act.hook, ops);
    RollbackIsBestEffort(types, s, act.g, act.hook, ops, TRACE_LOG);
    CommitOutcome(types, s, act.g, act.hook, ops, TRACE_LOG);
  }

  lemma {:induction false} AbsorbTotals(s: Stats, events: seq<RollbackEvent>)
    ensures var r := T.AbsorbAll(s, events);
      && r.abandonedCount == s.abandonedCount + T.CountAbandoned(events)
      && r.abandonedWeightTotal == s.abandonedWeightTotal + T.AbandonedWeight(events)
  {
    if events != [] { AbsorbTotals(s, events[..|events| - 1]); }
  }

  /** What a drain without conflicts does to the books, from the three weights alone. */
  lemma QuietDrain(types: Types, s: Store, max: nat, s': Store, e: Entry)
    requires Sound(types, s) && Declared(types) && Quiet(types, s) && Goes(types, s, Drain(max), s', e)
    ensures Sound(types, s') && Quiet(types, s') && BookOf(types, s') == StepBook(BookOf(types, s), e)
    ensures e.fate == Budget(0, 0, LogWeight(types, s), StatsWeight(types, s), max, None).Fate()
  {
    QuietBudget(types, s, max);
    ActBooks(types, s, Drain(max));
    DrainStaysQuiet(types, s, Drain(max));
  }

  lemma RepeatingBudget(log: nat, stats: nat)
    requires stats > 0
    ensures Budget(0, 0, log, stats, log, None).Fate() == Drained(true, false)
  {
  }

  /** A log that outweighs the budget is not kept, and the driver then commits unless the
      counters weigh exactly the budget. */
  lemma OutgrownBudget(log: nat, stats: nat, max: nat)
    requires log > max > 0 && stats != max
    ensures Budget(0, 0, log, stats, max, None).Fate() == Drained(false, false)
  {
  }

  lemma LosingBudget(log: nat, stats: nat)
    requires stats < log
    ensures Budget(0, 0, log, stats, stats, None).Fate() == Drained(false, true)
  {
  }

  /** One drain of a run, when no conflicts wait. */
  lemma DrainOfRun(types: Types, acts: seq<Act>, states: seq<Store>, entries: seq<Entry>, i: nat, max: nat)
    requires IsRun(types, acts, states, entries) && i < |acts| && acts[i] == Drain(max) && Quiet(types, states[i])
    ensures Quiet(types, states[i + 1]) && BookOf(types, states[i + 1]) == StepBook(BookOf(types, states[i]), entries[i])
    ensures entries[i].fate == Budget(0, 0, LogWeight(types, states[i]), StatsWeight(types, states[i]), max, None).Fate()
  {
    RunIsSound(types, acts, states, entries, i);
    assert Going(types)(states[i], acts[i], states[i + 1], entries[i]);
    QuietDrain(types, states[i], max, states[i + 1], entries[i]);
  }

  /** A run of two drains under one guard, whose budget is exactly the weight of the log at
      first; the log with the first drain's event appended outweighs it. */
  ghost predicate TwoDrains(types: Types, acts: seq<Act>, states: seq<Store>, entries: seq<Entry>) {
    && IsRun(types, acts, states, entries) && |acts| == 2
    && acts[0] == acts[1] == Drain(LogWeight(types, states[0]))
    && Quiet(types, states[0]) && LogWeight(types, states[0]) > 0 && StatsWeight(types, states[0]) > 0
    && LogWeight(types, states[1]) > LogWeight(types, states[0]) && StatsWeight(types, states[1]) != LogWeight(types, states[0])
  }

  /** "Every event is counted once" fails: a drain under a budget that is exactly the weight of
      the log counts the events and puts them back, so after the next drain of the same guard the
      abandoned count and weight exceed those of the whole stream by exactly the events the log held at first. */
  lemma EventsCanBeCountedTwice(types: Types, acts: seq<Act>, states: seq<Store>, entries: seq<Entry>)
    requires TwoDrains(types, acts, states, entries)
    ensures var book := BookOf(types, states[0]);
      var counted, due := BookOf(types, states[2]).stats, T.AbsorbAll(book.stats, book.log + [entries[0].event]);
      && counted.abandonedCount == due.abandonedCount + T.CountAbandoned(book.log)
      && counted.abandonedWeightTotal == due.abandonedWeightTotal + T.AbandonedWeight(book.log)
  {
    var max := LogWeight(types, states[0]);
    DrainOfRun(types, acts, states, entries, 0, max);
    RepeatingBudget(max, StatsWeight(types, states[0]));
    DrainOfRun(types, acts, states, entries, 1, max);
    OutgrownBudget(LogWeight(types, states[1]), StatsWeight(types, states[1]), max);
    CountedTwice(BookOf(types, states[0]), entries[0], entries[1]);
  }

  lemma CountedTwice(book: Book, e: Entry, f: Entry)
    requires e.fate == Drained(true, false) && f.fate == Drained(false, false)
    ensures var counted, due := StepBook(StepBook(book, e), f).stats, T.AbsorbAll(book.stats, book.log + [e.event]);
      && counted.abandonedCount == due.abandonedCount + T.CountAbandoned(book.log)
      && counted.abandonedWeightTotal == due.abandonedWeightTotal + T.AbandonedWeight(book.log)
  {
    AbsorbTotals(book.stats, book.log);
    AbsorbTotals(T.AbsorbAll(book.stats, book.log), book.log + [e.event]);
    AbsorbTotals(book.stats, book.log + [e.event]);
  }

  /** And events can be lost: under a budget that is exactly the weight of the counters and less
      than that of the log, the log is emptied and the counters are put back. */
  lemma EventsCanBeLost(types: Types, acts: seq<Act>, states: seq<Store>, entries: seq<Entry>)
    requires IsRun(types, acts, states, entries) && |acts| == 1 && Quiet(types, states[0])
    requires StatsWeight(types, states[0]) < LogWeight(types, states[0]) && acts[0] == Drain(StatsWeight(types, states[0]))
    ensures BookOf(types, states[1]) == Book([] + [entries[0].event], BookOf(types, states[0]).stats)
  {
    DrainOfRun(types, acts, states, entries, 0, StatsWeight(types, states[0]));
    LosingBudget(LogWeight(types, states[0]), StatsWeight(types, states[0]));
  }
}
