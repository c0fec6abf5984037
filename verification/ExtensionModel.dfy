/**
 The value-level semantics of the kernel's typed extension storage, of the
 copy-on-write guards attached to it, and of the driver that wraps one plugin
 hook.  `ExtensionObjects.dfy` holds the objects that are proved to behave like
 these functions; `RollbackTheorems.dfy` proves what rollback guarantees.
 */
module ExtensionModel {
  import opened Options

  type TypeId = nat
  type Blob = seq<bv8>

  /** The type id of `RollbackEventLog`, the one type the guards write themselves. */
  const EVENT_LOG: TypeId := 0

  /** The other types the telemetry plugin works on: its counters, the superseded
      transitions it drains, and the summary it keeps of them. */
  const TELEMETRY: TypeId := 1
  const TRACE_LOG: TypeId := 2
  const CONFLICTS: TypeId := 3

  datatype Strategy = FullClone | NoSnapshot | Incremental | CriticalFullClone

  datatype RollbackEvent = RollbackEvent(
    hookName: string, wasRollback: bool, frameWeight: nat, budgetExceeded: bool)

  /** One row of `per_hook_stats`, and the telemetry counters. */
  datatype Row = Row(name: string, abandoned: nat, restored: nat)

  datatype Stats = Stats(abandonedCount: nat, restoredCount: nat, abandonedWeightTotal: nat, rows: seq<Row>)

  /** A boxed extension value: one of the types named above, or any other payload.  Of a
      superseded transition only the plugin that preempted it is kept. */
  datatype Value =
    | EventLog(events: seq<RollbackEvent>)
    | TelemetryStats(stats: Stats)
    | TraceLog(preemptedBy: seq<string>)
    | ConflictSummary(total: nat, unique: nat, last: Option<string>)
    | Plain(payload: string)

  datatype VTable = VTable(
    extId: string,
    serialize: Value -> Option<Blob>,
    deserialize: Blob -> Option<Value>,
    weight: Value -> nat,
    strategy: Strategy,
    defaultValue: Value)

  /** What `build_vtable` returns for each extension type of the program. */
  type Types = TypeId -> VTable

  // ---------------------------------------------------------------------------
  // Guards
  // ---------------------------------------------------------------------------

  /** The thresholds of the three guards. */
  datatype Limits =
    | Flat(max: nat)
    | Tiered(maxStandard: nat, maxBestEffort: nat)
    | Adaptive(fallback: nat, budget: Option<string -> nat>)

  datatype Bucket = Standard | BestEffort

  datatype Snapshot = Snapshot(id: TypeId, value: Value)

  datatype Guard = Guard(
    limits: Limits,
    frame: Option<seq<Snapshot>>,
    standard: nat,
    bestEffort: nat,
    seen: set<TypeId>,
    hook: string)

  function MaxOf(limits: Limits, hook: string, b: Bucket): nat {
    match limits
    case Flat(max) => max
    case Tiered(s, e) => if b.Standard? then s else e
    case Adaptive(fallback, budget) => if budget.Some? then (budget.value)(hook) else fallback
  }

  /** The budget a snapshot strategy is charged to; `None` for the strategies that are not budgeted. */
  function BucketOf(limits: Limits, strategy: Strategy): Option<Bucket> {
    match strategy
    case FullClone => Some(Standard)
    case Incremental => Some(if limits.Tiered? then BestEffort else Standard)
    case NoSnapshot => None
    case CriticalFullClone => None
  }

  function UsedOf(g: Guard, b: Bucket): nat {
    if b.Standard? then g.standard else g.bestEffort
  }

  predicate Admits(g: Guard, vt: VTable, current: Value) {
    match BucketOf(g.limits, vt.strategy)
    case None => vt.strategy.CriticalFullClone?
    case Some(b) => UsedOf(g, b) + vt.weight(current) <= MaxOf(g.limits, g.hook, b)
  }

  function Charge(g: Guard, vt: VTable, current: Value): Guard {
    match BucketOf(g.limits, vt.strategy)
    case None => g
    case Some(b) =>
      if b.Standard? then g.(standard := g.standard + vt.weight(current))
      else g.(bestEffort := g.bestEffort + vt.weight(current))
  }

  function Push(g: Guard, snapshot: Snapshot): Guard {
    if g.frame.Some? then g.(frame := Some(g.frame.value + [snapshot])) else g
  }

  function BeginHook(g: Guard, hook: string): Guard {
    g.(frame := Some([]), standard := 0, bestEffort := 0, seen := {},
       hook := if g.limits.Adaptive? then hook else g.hook)
  }

  function OnMutation(g: Guard, t: TypeId, vt: VTable, current: Value): Guard {
    if t in g.seen then g
    else if Admits(g, vt, current) then
      Push(Charge(g, vt, current), Snapshot(t, current)).(seen := g.seen + {t})
    else g.(seen := g.seen + {t})
  }

  predicate BudgetExceeded(g: Guard) {
    || g.standard >= MaxOf(g.limits, g.hook, Standard)
    || (g.limits.Tiered? && g.bestEffort >= g.limits.maxBestEffort)
  }

  function HookEvent(g: Guard, wasRollback: bool): RollbackEvent {
    RollbackEvent(
      if g.limits.Adaptive? then g.hook else "",
      wasRollback, g.standard + g.bestEffort, BudgetExceeded(g))
  }

  function Cleared(g: Guard): Guard {
    g.(frame := None, standard := 0, bestEffort := 0, seen := {})
  }

  // ---------------------------------------------------------------------------
  // Storage
  // ---------------------------------------------------------------------------

  datatype Store = Store(
    hot: map<TypeId, Value>,
    cold: map<string, Blob>,
    registered: set<TypeId>,
    extIds: map<string, TypeId>,
    policy: Option<Guard>,
    seen: set<TypeId>)

  const EMPTY_STORE := Store(map[], map[], {}, map[], None, {})

  /** What a type reads as when only its persisted blob is left. */
  function ColdView(types: Types, cold: map<string, Blob>, t: TypeId): Value {
    var vt := types(t);
    if vt.extId in cold && vt.deserialize(cold[vt.extId]).Some?
    then vt.deserialize(cold[vt.extId]).value
    else vt.defaultValue
  }

  /** The abstract content of a type: its hot value, else its decoded blob, else its default. */
  function View(types: Types, s: Store, t: TypeId): Value {
    if t in s.hot then s.hot[t] else ColdView(types, s.cold, t)
  }

  function Register(types: Types, s: Store, t: TypeId): Store {
    s.(extIds := s.extIds[types(t).extId := t], registered := s.registered + {t})
  }

  function EnsureRegistered(types: Types, s: Store, t: TypeId): Store {
    if t in s.registered then s else Register(types, s, t)
  }

  function Materialise(types: Types, s: Store, t: TypeId): Store {
    if t in s.hot then s else s.(hot := s.hot[t := ColdView(types, s.cold, t)])
  }

  function Notify(types: Types, s: Store, t: TypeId): Store {
    if s.policy.None? || t in s.seen || t !in s.registered || t !in s.hot then s
    else s.(policy := Some(OnMutation(s.policy.value, t, types(t), s.hot[t])), seen := s.seen + {t})
  }

  function GetOrInsertDefault(types: Types, s: Store, t: TypeId): Store {
    Notify(types, Materialise(types, EnsureRegistered(types, s, t), t), t)
  }

  function Write(s: Store, t: TypeId, v: Value): Store {
    s.(hot := s.hot[t := v])
  }

  /** `insert`: persists the blob, then the hot value; a serialization error changes neither. */
  function Insert(types: Types, s: Store, t: TypeId, v: Value): Store {
    var r := EnsureRegistered(types, s, t);
    if types(t).strategy.NoSnapshot? then Write(r, t, v)
    else
      match types(t).serialize(v)
      case None => r
      case Some(blob) => Write(r, t, v).(cold := r.cold[types(t).extId := blob])
  }

  predicate InsertSucceeds(types: Types, t: TypeId, v: Value) {
    types(t).strategy.NoSnapshot? || types(t).serialize(v).Some?
  }

  function Decoded(vt: VTable, blob: Blob): Value {
    if vt.deserialize(blob).Some? then vt.deserialize(blob).value else vt.defaultValue
  }

  predicate Hydratable(s: Store, extId: string) {
    extId in s.extIds && s.extIds[extId] in s.registered
  }

  function Hydrate(types: Types, s: Store, extId: string, blob: Blob): Store {
    if Hydratable(s, extId) then
      var t := s.extIds[extId];
      Write(s, t, Decoded(types(t), blob)).(cold := s.cold[extId := blob])
    else s
  }

  function Evict(s: Store, t: TypeId): Store {
    s.(hot := s.hot - {t})
  }

  function Attach(s: Store, g: Guard): Store {
    s.(policy := Some(g), seen := {})
  }

  function Detach(s: Store): Store {
    s.(policy := None, seen := {})
  }

  function Restore(hot: map<TypeId, Value>, frame: seq<Snapshot>): map<TypeId, Value> {
    if frame == [] then hot
    else
      var last := frame[|frame| - 1];
      Restore(hot, frame[..|frame| - 1])[last.id := last.value]
  }

  /** The storage with the frame, if there is one, written back. */
  function Restored(s: Store, frame: Option<seq<Snapshot>>): Store {
    if frame.Some? then s.(hot := Restore(s.hot, frame.value)) else s
  }

  /** Appends to the event log; a value that does not downcast to a log is left alone. */
  function AppendEvent(log: Value, e: RollbackEvent): Value {
    match log
    case EventLog(events) => EventLog(events + [e])
    case _ => log
  }

  function LogEvent(types: Types, s: Store, e: RollbackEvent): Store {
    var r := GetOrInsertDefault(types, s, EVENT_LOG);
    if EVENT_LOG in r.hot then Write(r, EVENT_LOG, AppendEvent(r.hot[EVENT_LOG], e)) else r
  }

  function CommitHook(types: Types, s: Store, g: Guard): Store {
    LogEvent(types, s, HookEvent(g, false))
  }

  function RollbackHook(types: Types, s: Store, g: Guard): Store {
    LogEvent(types, Restored(s, g.frame), HookEvent(g, true))
  }

  // ---------------------------------------------------------------------------
  // Hooks
  // ---------------------------------------------------------------------------

  /** What a plugin may do to the storage inside a hook.  `GetMut` and
      `GetOrInsert` carry the value finally written through the reference. */
  datatype Op =
    | GetMut(t: TypeId, v: Value)
    | GetOrInsert(t: TypeId, v: Value)
    | InsertOp(t: TypeId, v: Value)
    | HydrateOp(extId: string, blob: Blob)
    | EvictOp(t: TypeId)

  function Step(types: Types, s: Store, op: Op): Store {
    match op
    case GetMut(t, v) => if t in s.hot then Write(Notify(types, s, t), t, v) else s
    case GetOrInsert(t, v) => Write(GetOrInsertDefault(types, s, t), t, v)
    case InsertOp(t, v) => Insert(types, s, t, v)
    case HydrateOp(e, b) => Hydrate(types, s, e, b)
    case EvictOp(t) => Evict(s, t)
  }

  function Run(types: Types, s: Store, ops: seq<Op>): Store {
    if ops == [] then s else Step(types, Run(types, s, ops[..|ops| - 1]), ops[|ops| - 1])
  }

  /** The storage when the hook body has run with the guard attached. */
  function AfterBody(types: Types, s: Store, g: Guard, hook: string, ops: seq<Op>): Store {
    Run(types, Attach(s, BeginHook(g, hook)), ops)
  }

  /** The end of a wrapped hook: the attached guard, if any, is taken back and then
      rolls back or commits. */
  function Finish(types: Types, s: Store): Store {
    if s.policy.None? then Detach(s)
    else if BudgetExceeded(s.policy.value) then RollbackHook(types, Detach(s), s.policy.value)
    else CommitHook(types, Detach(s), s.policy.value)
  }

  /** One hook under the driver: begin, attach, body, detach, then rollback or commit. */
  function DrivenHook(types: Types, s: Store, g: Guard, hook: string, ops: seq<Op>): Store {
    Finish(types, AfterBody(types, s, g, hook, ops))
  }

  /** The body under a driver with or without a policy of its own.  Without one it begins
      and attaches nothing, so a guard that is already attached sees the body. */
  function WrappedBody(types: Types, s: Store, g: Option<Guard>, hook: string, ops: seq<Op>): Store {
    match g
    case Some(own) => AfterBody(types, s, own, hook, ops)
    case None => Run(types, s, ops)
  }
}
