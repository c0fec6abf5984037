/**
 The kernel's `ExtensionStorage`, the three copy-on-write guards and the hook
 driver as objects that update their fields in place.  Every method is proved to
 do exactly what the corresponding function of `ExtensionModel` says.
 */
module ExtensionObjects {
  import opened Options
  import Spec = ExtensionModel
  import opened ExtensionModel

  // ---------------------------------------------------------------------------
  // Guards
  // ---------------------------------------------------------------------------

  class UndoFrameGuard {
    const maxCowBytesPerHook: nat
    var activeFrame: Option<seq<Snapshot>>
    var currentFrameWeight: nat
    var snapshottedTypes: set<TypeId>

    ghost function Model(): Guard
      reads this
    {
      Guard(Flat(maxCowBytesPerHook), activeFrame, currentFrameWeight, 0, snapshottedTypes, "")
    }

    constructor (maxCowBytesPerHook: nat)
      ensures Model() == Guard(Flat(maxCowBytesPerHook), None, 0, 0, {}, "")
    {
      this.maxCowBytesPerHook := maxCowBytesPerHook;
      activeFrame, currentFrameWeight, snapshottedTypes := None, 0, {};
    }

    method BeginHook(hookName: string)
      modifies this
      ensures Model() == Spec.BeginHook(old(Model()), hookName)
    {
      activeFrame := Some([]);
      currentFrameWeight := 0;
      snapshottedTypes := {};
    }

    method OnMutation(typeId: TypeId, vtable: VTable, current: Value)
      modifies this
      ensures Model() == Spec.OnMutation(old(Model()), typeId, vtable, current)
    {
      if typeId in snapshottedTypes {
        return;
      }
      if vtable.strategy.NoSnapshot? {
        snapshottedTypes := snapshottedTypes + {typeId};
        return;
      }
      if vtable.strategy.CriticalFullClone? {
        if activeFrame.Some? {
          activeFrame := Some(activeFrame.value + [Snapshot(typeId, current)]);
        }
        snapshottedTypes := snapshottedTypes + {typeId};
        return;
      }
      var weight := vtable.weight(current);
      if currentFrameWeight + weight > maxCowBytesPerHook {
        snapshottedTypes := snapshottedTypes + {typeId};
        return;
      }
      if activeFrame.Some? {
        activeFrame := Some(activeFrame.value + [Snapshot(typeId, current)]);
      }
      currentFrameWeight := currentFrameWeight + weight;
      snapshottedTypes := snapshottedTypes + {typeId};
    }

    method IsBudgetExceeded() returns (exceeded: bool)
      ensures exceeded == BudgetExceeded(Model())
    {
      exceeded := currentFrameWeight >= maxCowBytesPerHook;
    }

    method ClearFrame()
      modifies this
      ensures Model() == Cleared(old(Model()))
    {
      activeFrame := None;
      currentFrameWeight := 0;
      snapshottedTypes := {};
    }

    method CommitHook(ext: ExtensionStorage)
      requires ext.Valid() && this !in ext.Repr()
      modifies this, ext.Repr()
      ensures ext.Valid() && ext.rollbackPolicy == old(ext.rollbackPolicy)
      ensures ext.Model() == Spec.CommitHook(ext.types, old(ext.Model()), old(Model()))
      ensures Model() == Cleared(old(Model()))
    {
      var event := RollbackEvent("", false, currentFrameWeight, currentFrameWeight >= maxCowBytesPerHook);
      assert event == HookEvent(Model(), false);
      ext.PushLogEvent(event);
      ClearFrame();
    }

    method RollbackHook(ext: ExtensionStorage)
      requires ext.Valid() && this !in ext.Repr()
      modifies this, ext.Repr()
      ensures ext.Valid() && ext.rollbackPolicy == old(ext.rollbackPolicy)
      ensures ext.Model() == Spec.RollbackHook(ext.types, old(ext.Model()), old(Model()))
      ensures Model() == Cleared(old(Model()))
    {
      var budgetExceeded := currentFrameWeight >= maxCowBytesPerHook;
      var event := RollbackEvent("", true, currentFrameWeight, budgetExceeded);
      assert event == HookEvent(Model(), true);
      ext.RestoreAndLog(activeFrame, event);
      ClearFrame();
    }
  }

  class TieredUndoFrameGuard {
    const maxStandardBytes: nat
    const maxBestEffortBytes: nat
    var activeFrame: Option<seq<Snapshot>>
    var currentStandardWeight: nat
    var currentBestEffortWeight: nat
    var snapshottedTypes: set<TypeId>

    ghost function Model(): Guard
      reads this
    {
      Guard(Tiered(maxStandardBytes, maxBestEffortBytes), activeFrame,
            currentStandardWeight, currentBestEffortWeight, snapshottedTypes, "")
    }

    constructor (maxStandardBytes: nat, maxBestEffortBytes: nat)
      ensures Model() == Guard(Tiered(maxStandardBytes, maxBestEffortBytes), None, 0, 0, {}, "")
    {
      this.maxStandardBytes, this.maxBestEffortBytes := maxStandardBytes, maxBestEffortBytes;
      activeFrame, currentStandardWeight, currentBestEffortWeight, snapshottedTypes := None, 0, 0, {};
    }

    method BeginHook(hookName: string)
      modifies this
      ensures Model() == Spec.BeginHook(old(Model()), hookName)
    {
      activeFrame := Some([]);
      currentStandardWeight := 0;
      currentBestEffortWeight := 0;
      snapshottedTypes := {};
    }

    method OnMutation(typeId: TypeId, vtable: VTable, current: Value)
      modifies this
      ensures Model() == Spec.OnMutation(old(Model()), typeId, vtable, current)
    {
      if typeId in snapshottedTypes {
        return;
      }
      match vtable.strategy {
        case NoSnapshot =>
          snapshottedTypes := snapshottedTypes + {typeId};
        case CriticalFullClone =>
          if activeFrame.Some? {
            activeFrame := Some(activeFrame.value + [Snapshot(typeId, current)]);
          }
          snapshottedTypes := snapshottedTypes + {typeId};
        case FullClone =>
          var weight := vtable.weight(current);
          if currentStandardWeight + weight > maxStandardBytes {
            snapshottedTypes := snapshottedTypes + {typeId};
            return;
          }
          if activeFrame.Some? {
            activeFrame := Some(activeFrame.value + [Snapshot(typeId, current)]);
          }
          currentStandardWeight := currentStandardWeight + weight;
          snapshottedTypes := snapshottedTypes + {typeId};
        case Incremental =>
          var weight := vtable.weight(current);
          if currentBestEffortWeight + weight > maxBestEffortBytes {
            snapshottedTypes := snapshottedTypes + {typeId};
            return;
          }
          if activeFrame.Some? {
            activeFrame := Some(activeFrame.value + [Snapshot(typeId, current)]);
          }
          currentBestEffortWeight := currentBestEffortWeight + weight;
          snapshottedTypes := snapshottedTypes + {typeId};
      }
    }

    method IsBudgetExceeded() returns (exceeded: bool)
      ensures exceeded == BudgetExceeded(Model())
    {
      exceeded := currentStandardWeight >= maxStandardBytes || currentBestEffortWeight >= maxBestEffortBytes;
    }

    method ClearFrame()
      modifies this
      ensures Model() == Cleared(old(Model()))
    {
      activeFrame := None;
      currentStandardWeight := 0;
      currentBestEffortWeight := 0;
      snapshottedTypes := {};
    }

    method CommitHook(ext: ExtensionStorage)
      requires ext.Valid() && this !in ext.Repr()
      modifies this, ext.Repr()
      ensures ext.Valid() && ext.rollbackPolicy == old(ext.rollbackPolicy)
      ensures ext.Model() == Spec.CommitHook(ext.types, old(ext.Model()), old(Model()))
      ensures Model() == Cleared(old(Model()))
    {
      var event := RollbackEvent("", false, currentStandardWeight + currentBestEffortWeight,
        currentStandardWeight >= maxStandardBytes || currentBestEffortWeight >= maxBestEffortBytes);
      assert event == HookEvent(Model(), false);
      ext.PushLogEvent(event);
      ClearFrame();
    }

    method RollbackHook(ext: ExtensionStorage)
      requires ext.Valid() && this !in ext.Repr()
      modifies this, ext.Repr()
      ensures ext.Valid() && ext.rollbackPolicy == old(ext.rollbackPolicy)
      ensures ext.Model() == Spec.RollbackHook(ext.types, old(ext.Model()), old(Model()))
      ensures Model() == Cleared(old(Model()))
    {
      var budgetExceeded := currentStandardWeight >= maxStandardBytes || currentBestEffortWeight >= maxBestEffortBytes;
      var event := RollbackEvent("", true, currentStandardWeight + currentBestEffortWeight, budgetExceeded);
      assert event == HookEvent(Model(), true);
      ext.RestoreAndLog(activeFrame, event);
      ClearFrame();
    }
  }

  class AdaptiveUndoFrameGuard {
    const fallbackMaxCowBytes: nat
    const budgetPolicy: Option<string -> nat>
    var activeFrame: Option<seq<Snapshot>>
    var currentFrameWeight: nat
    var snapshottedTypes: set<TypeId>
    var currentHook: string

    ghost function Model(): Guard
      reads this
    {
      Guard(Adaptive(fallbackMaxCowBytes, budgetPolicy), activeFrame, currentFrameWeight, 0,
            snapshottedTypes, currentHook)
    }

    constructor (fallbackMaxCowBytes: nat, budgetPolicy: Option<string -> nat>)
      ensures Model() == Guard(Adaptive(fallbackMaxCowBytes, budgetPolicy), None, 0, 0, {}, "")
    {
      this.fallbackMaxCowBytes, this.budgetPolicy := fallbackMaxCowBytes, budgetPolicy;
      activeFrame, currentFrameWeight, snapshottedTypes, currentHook := None, 0, {}, "";
    }

    /** The policy's budget for the current hook, else the fallback. */
    function EffectiveMax(): (max: nat)
      reads this
      ensures budgetPolicy == None ==> max == fallbackMaxCowBytes
      ensures budgetPolicy != None ==> max == budgetPolicy.value(currentHook)
      ensures max == MaxOf(Model().limits, Model().hook, Standard)
    {
      match budgetPolicy
      case Some(budget) => budget(currentHook)
      case None => fallbackMaxCowBytes
    }

    method BeginHook(hookName: string)
      modifies this
      ensures Model() == Spec.BeginHook(old(Model()), hookName)
    {
      activeFrame := Some([]);
      currentFrameWeight := 0;
      snapshottedTypes := {};
      currentHook := hookName;
    }

    method OnMutation(typeId: TypeId, vtable: VTable, current: Value)
      modifies this
      ensures Model() == Spec.OnMutation(old(Model()), typeId, vtable, current)
    {
      if typeId in snapshottedTypes {
        return;
      }
      if vtable.strategy.NoSnapshot? {
        snapshottedTypes := snapshottedTypes + {typeId};
        return;
      }
      if vtable.strategy.CriticalFullClone? {
        if activeFrame.Some? {
          activeFrame := Some(activeFrame.value + [Snapshot(typeId, current)]);
        }
        snapshottedTypes := snapshottedTypes + {typeId};
        return;
      }
      var weight := vtable.weight(current);
      var max := EffectiveMax();
      if currentFrameWeight + weight > max {
        snapshottedTypes := snapshottedTypes + {typeId};
        return;
      }
      if activeFrame.Some? {
        activeFrame := Some(activeFrame.value + [Snapshot(typeId, current)]);
      }
      currentFrameWeight := currentFrameWeight + weight;
      snapshottedTypes := snapshottedTypes + {typeId};
    }

    method IsBudgetExceeded() returns (exceeded: bool)
      ensures exceeded == BudgetExceeded(Model())
    {
      exceeded := currentFrameWeight >= EffectiveMax();
    }

    method ClearFrame()
      modifies this
      ensures Model() == Cleared(old(Model()))
    {
      activeFrame := None;
      currentFrameWeight := 0;
      snapshottedTypes := {};
    }

    method CommitHook(ext: ExtensionStorage)
      requires ext.Valid() && this !in ext.Repr()
      modifies this, ext.Repr()
      ensures ext.Valid() && ext.rollbackPolicy == old(ext.rollbackPolicy)
      ensures ext.Model() == Spec.CommitHook(ext.types, old(ext.Model()), old(Model()))
      ensures Model() == Cleared(old(Model()))
    {
      var event := RollbackEvent(currentHook, false, currentFrameWeight, currentFrameWeight >= EffectiveMax());
      assert event == HookEvent(Model(), false);
      ext.PushLogEvent(event);
      ClearFrame();
    }

    method RollbackHook(ext: ExtensionStorage)
      requires ext.Valid() && this !in ext.Repr()
      modifies this, ext.Repr()
      ensures ext.Valid() && ext.rollbackPolicy == old(ext.rollbackPolicy)
      ensures ext.Model() == Spec.RollbackHook(ext.types, old(ext.Model()), old(Model()))
      ensures Model() == Cleared(old(Model()))
    {
      var max := EffectiveMax();
      var budgetExceeded := currentFrameWeight >= max;
      var event := RollbackEvent(currentHook, true, currentFrameWeight, budgetExceeded);
      assert event == HookEvent(Model(), true);
      ext.RestoreAndLog(activeFrame, event);
      ClearFrame();
    }
  }

  // ---------------------------------------------------------------------------
  // The boxed policy
  // ---------------------------------------------------------------------------

  /** The boxed `CycleRollbackPolicy`: one of the three guards. */
  datatype Policy =
    | UndoPolicy(undo: UndoFrameGuard)
    | TieredPolicy(tiered: TieredUndoFrameGuard)
    | AdaptivePolicy(adaptive: AdaptiveUndoFrameGuard)

  ghost function GuardObject(p: Policy): object {
    match p
    case UndoPolicy(g) => g
    case TieredPolicy(g) => g
    case AdaptivePolicy(g) => g
  }

  ghost function GuardModel(p: Policy): Guard
    reads GuardObject(p)
  {
    match p
    case UndoPolicy(g) => g.Model()
    case TieredPolicy(g) => g.Model()
    case AdaptivePolicy(g) => g.Model()
  }

  // ---------------------------------------------------------------------------
  // Storage
  // ---------------------------------------------------------------------------

  class ExtensionStorage {
    const types: Types
    var hotMap: map<TypeId, Value>
    var coldSnapshot: map<string, Blob>
    var registry: map<TypeId, VTable>
    var extIdToTypeId: map<string, TypeId>
    var rollbackPolicy: Option<Policy>
    var snapshottedThisHook: set<TypeId>

    ghost function Repr(): set<object>
      reads this
    {
      {this} + if rollbackPolicy.Some? then {GuardObject(rollbackPolicy.value)} else {}
    }

    /** Each registered vtable is the one its type builds; the storage is no guard. */
    ghost predicate Valid()
      reads this
    {
      && (forall t :: t in registry ==> registry[t] == types(t))
      && (rollbackPolicy.Some? ==> GuardObject(rollbackPolicy.value) != this)
    }

    ghost function Model(): Store
      reads Repr()
    {
      Store(hotMap, coldSnapshot, registry.Keys, extIdToTypeId,
            if rollbackPolicy.Some? then Some(GuardModel(rollbackPolicy.value)) else None,
            snapshottedThisHook)
    }

    constructor (types: Types)
      ensures Valid() && this.types == types && Model() == EMPTY_STORE && fresh(Repr())
    {
      this.types := types;
      hotMap, coldSnapshot, registry, extIdToTypeId := map[], map[], map[], map[];
      rollbackPolicy, snapshottedThisHook := None, {};
    }

    method Register(t: TypeId)
      requires Valid()
      modifies this
      ensures Valid() && rollbackPolicy == old(rollbackPolicy)
      ensures Model() == Spec.Register(types, old(Model()), t)
    {
      var vtable := types(t);
      extIdToTypeId := extIdToTypeId[vtable.extId := t];
      registry := registry[t := vtable];
      assert registry.Keys == old(registry.Keys) + {t};
    }

    method Insert(t: TypeId, value: Value) returns (ok: bool)
      requires Valid()
      modifies this
      ensures Valid() && rollbackPolicy == old(rollbackPolicy)
      ensures Model() == Spec.Insert(types, old(Model()), t, value)
      ensures ok == (types(t).strategy == NoSnapshot || types(t).serialize(value) != None)
      ensures View(types, Model(), t) == if ok then value else old(View(types, Model(), t))
    {
      if t !in registry {
        Register(t);
      }
      var vtable := registry[t];
      if !vtable.strategy.NoSnapshot? {
        match vtable.serialize(value) {
          case None => return false;
          case Some(blob) => coldSnapshot := coldSnapshot[vtable.extId := blob];
        }
      }
      hotMap := hotMap[t := value];
      ok := true;
    }

    /** Reads a type's view if it is in memory; never decodes a blob or builds a default. */
    method Get(t: TypeId) returns (r: Option<Value>)
      ensures r.Some? ==> r.value == View(types, Model(), t)
      ensures r.None? <==> Materialise(types, Model(), t) != Model()
    {
      if t !in hotMap {
        assert t in Materialise(types, Model(), t).hot;
        return None;
      }
      r := Some(hotMap[t]);
    }

    /** Hands the current value to the attached guard on the first mutable access of the hook. */
    method NotifyCowOnFirstMutation(t: TypeId)
      requires Valid()
      modifies Repr()
      ensures Valid() && rollbackPolicy == old(rollbackPolicy)
      ensures Model() == Notify(types, old(Model()), t)
    {
      if rollbackPolicy.None? {
        return;
      }
      if t in snapshottedThisHook {
        return;
      }
      if t !in registry || t !in hotMap {
        return;
      }
      match rollbackPolicy.value {
        case UndoPolicy(g) => g.OnMutation(t, registry[t], hotMap[t]);
        case TieredPolicy(g) => g.OnMutation(t, registry[t], hotMap[t]);
        case AdaptivePolicy(g) => g.OnMutation(t, registry[t], hotMap[t]);
      }
      snapshottedThisHook := snapshottedThisHook + {t};
    }

    /** The reference handed out is the hot entry itself; `Assign` writes through it. */
    method GetMut(t: TypeId) returns (present: bool)
      requires Valid()
      modifies Repr()
      ensures Valid() && rollbackPolicy == old(rollbackPolicy)
      ensures Model() == Notify(types, old(Model()), t)
      ensures present == (t in hotMap)
    {
      NotifyCowOnFirstMutation(t);
      present := t in hotMap;
    }

    method Assign(t: TypeId, value: Value)
      requires Valid() && t in hotMap
      modifies this
      ensures Valid() && rollbackPolicy == old(rollbackPolicy)
      ensures Model() == Write(old(Model()), t, value)
    {
      hotMap := hotMap[t := value];
    }

    /** Decodes the type's persisted blob into the hot map, or its default if there is no usable blob. */
    method LoadFromCold(t: TypeId)
      requires Valid() && t in registry && t !in hotMap
      modifies this
      ensures Valid() && rollbackPolicy == old(rollbackPolicy)
      ensures Model() == Materialise(types, old(Model()), t)
    {
      var vtable := registry[t];
      var decoded := None;
      if vtable.extId in coldSnapshot {
        decoded := vtable.deserialize(coldSnapshot[vtable.extId]);
      }
      hotMap := hotMap[t := if decoded.Some? then decoded.value else vtable.defaultValue];
    }

    method GetOrInsertDefault(t: TypeId) returns (value: Value)
      requires Valid()
      modifies Repr()
      ensures Valid() && rollbackPolicy == old(rollbackPolicy)
      ensures Model() == Spec.GetOrInsertDefault(types, old(Model()), t)
      ensures t in hotMap && value == hotMap[t] == View(types, old(Model()), t)
    {
      if t !in registry {
        Register(t);
      }
      if t !in hotMap {
        LoadFromCold(t);
      }
      NotifyCowOnFirstMutation(t);
      value := hotMap[t];
    }

    method HydratePlugin(extId: string, blob: Blob) returns (known: bool)
      requires Valid()
      modifies this
      ensures Valid() && rollbackPolicy == old(rollbackPolicy)
      ensures Model() == Hydrate(types, old(Model()), extId, blob)
      ensures known == (extId in old(extIdToTypeId) && old(extIdToTypeId[extId]) in old(registry))
      ensures known ==>
        var t := old(extIdToTypeId[extId]);
        var decoded := types(t).deserialize(blob);
        View(types, Model(), t) == if decoded.Some? then decoded.value else types(t).defaultValue
    {
      if extId !in extIdToTypeId {
        return false;
      }
      var t := extIdToTypeId[extId];
      if t !in registry {
        return false;
      }
      var vtable := registry[t];
      var decoded := vtable.deserialize(blob);
      hotMap := hotMap[t := if decoded.Some? then decoded.value else vtable.defaultValue];
      coldSnapshot := coldSnapshot[extId := blob];
      known := true;
    }

    method RestoreColdSnapshot(snapshot: map<string, Blob>)
      requires Valid()
      modifies this
      ensures Valid() && rollbackPolicy == old(rollbackPolicy)
      ensures Model() == old(Model()).(cold := snapshot)
    {
      coldSnapshot := snapshot;
    }

    method AttachRollbackPolicy(policy: Policy)
      requires Valid() && GuardObject(policy) != this
      modifies this
      ensures Valid() && rollbackPolicy == Some(policy)
      ensures Model() == Attach(old(Model()), old(GuardModel(policy)))
      ensures GuardModel(policy) == old(GuardModel(policy))
    {
      rollbackPolicy := Some(policy);
      snapshottedThisHook := {};
    }

    method DetachRollbackPolicy() returns (policy: Option<Policy>)
      requires Valid()
      modifies this
      ensures Valid() && rollbackPolicy == None && policy == old(rollbackPolicy)
      ensures Model() == Detach(old(Model()))
      ensures policy.Some? ==> GuardModel(policy.value) == old(GuardModel(rollbackPolicy.value))
    {
      snapshottedThisHook := {};
      policy := rollbackPolicy;
      rollbackPolicy := None;
    }

    method RestoreBoxed(t: TypeId, value: Value)
      requires Valid()
      modifies this
      ensures Valid() && rollbackPolicy == old(rollbackPolicy)
      ensures Model() == Write(old(Model()), t, value)
    {
      hotMap := hotMap[t := value];
    }

    /** The restore loop shared by the guards' `rollback_hook`. */
    method RestoreFrame(frame: seq<Snapshot>)
      requires Valid()
      modifies this
      ensures Valid() && rollbackPolicy == old(rollbackPolicy)
      ensures Model() == old(Model()).(hot := Restore(old(hotMap), frame))
    {
      for i := 0 to |frame|
        invariant Valid() && rollbackPolicy == old(rollbackPolicy)
        invariant Model() == old(Model()).(hot := Restore(old(hotMap), frame[..i]))
      {
        assert frame[..i + 1][..i] == frame[..i];
        RestoreBoxed(frame[i].id, frame[i].value);
      }
      assert frame[..|frame|] == frame;
    }

    /** Appends one event to the log; if the stored value is no log, the event goes to a leaked default. */
    method PushLogEvent(e: RollbackEvent)
      requires Valid()
      modifies Repr()
      ensures Valid() && rollbackPolicy == old(rollbackPolicy)
      ensures Model() == LogEvent(types, old(Model()), e)
    {
      var log := GetOrInsertDefault(EVENT_LOG);
      match log {
        case EventLog(events) => Assign(EVENT_LOG, EventLog(events + [e]));
        case _ => assert hotMap[EVENT_LOG := log] == hotMap;
      }
    }

    /** What a rollback does to the storage: the frame, if there is one, is written back, then the event logged. */
    method RestoreAndLog(frame: Option<seq<Snapshot>>, e: RollbackEvent)
      requires Valid()
      modifies Repr()
      ensures Valid() && rollbackPolicy == old(rollbackPolicy)
      ensures Model() == LogEvent(types, Restored(old(Model()), frame), e)
    {
      if frame.Some? {
        RestoreFrame(frame.value);
      }
      PushLogEvent(e);
    }

    method EvictFromHot(t: TypeId) returns (removed: bool)
      requires Valid()
      modifies this
      ensures Valid() && rollbackPolicy == old(rollbackPolicy)
      ensures Model() == Evict(old(Model()), t)
      ensures removed == (t in old(hotMap)) && t !in hotMap
    {
      removed := t in hotMap;
      hotMap := hotMap - {t};
    }

    /** A plugin's hook body, given as the operations it performs. */
    method RunBody(ops: seq<Op>)
      requires Valid()
      modifies Repr()
      ensures Valid() && rollbackPolicy == old(rollbackPolicy)
      ensures Model() == Run(types, old(Model()), ops)
    {
      for i := 0 to |ops|
        invariant Valid() && rollbackPolicy == old(rollbackPolicy)
        invariant Model() == Run(types, old(Model()), ops[..i])
      {
        assert ops[..i + 1][..i] == ops[..i];
        RunOp(ops[i]);
      }
      assert ops[..|ops|] == ops;
    }

    method RunOp(op: Op)
      requires Valid()
      modifies Repr()
      ensures Valid() && rollbackPolicy == old(rollbackPolicy)
      ensures Model() == Step(types, old(Model()), op)
    {
      match op {
        case GetMut(t, v) =>
          var present := GetMut(t);
          if present {
            Assign(t, v);
          }
        case GetOrInsert(t, v) =>
          var _ := GetOrInsertDefault(t);
          Assign(t, v);
        case InsertOp(t, v) =>
          var _ := Insert(t, v);
        case HydrateOp(e, b) =>
          var _ := HydratePlugin(e, b);
        case EvictOp(t) =>
          var _ := EvictFromHot(t);
      }
    }
  }

  // ---------------------------------------------------------------------------
  // The driver
  // ---------------------------------------------------------------------------

  method BeginPolicy(p: Policy, hookName: string)
    modifies GuardObject(p)
    ensures GuardModel(p) == Spec.BeginHook(old(GuardModel(p)), hookName)
  {
    match p {
      case UndoPolicy(g) => g.BeginHook(hookName);
      case TieredPolicy(g) => g.BeginHook(hookName);
      case AdaptivePolicy(g) => g.BeginHook(hookName);
    }
  }

  method FinishPolicy(p: Policy, ext: ExtensionStorage)
    requires ext.Valid() && ext.rollbackPolicy.None? && GuardObject(p) != ext
    modifies GuardObject(p), ext
    ensures ext.Valid() && ext.rollbackPolicy.None?
    ensures GuardModel(p) == Cleared(old(GuardModel(p)))
    ensures ext.Model() == if BudgetExceeded(old(GuardModel(p)))
                           then Spec.RollbackHook(ext.types, old(ext.Model()), old(GuardModel(p)))
                           else Spec.CommitHook(ext.types, old(ext.Model()), old(GuardModel(p)))
  {
    match p {
      case UndoPolicy(g) =>
        var exceeded := g.IsBudgetExceeded();
        if exceeded { g.RollbackHook(ext); } else { g.CommitHook(ext); }
      case TieredPolicy(g) =>
        var exceeded := g.IsBudgetExceeded();
        if exceeded { g.RollbackHook(ext); } else { g.CommitHook(ext); }
      case AdaptivePolicy(g) =>
        var exceeded := g.IsBudgetExceeded();
        if exceeded { g.RollbackHook(ext); } else { g.CommitHook(ext); }
    }
  }

  ghost function ModelOf(policy: Option<Policy>): Option<Guard>
    reads if policy.Some? then {GuardObject(policy.value)} else {}
  {
    if policy.Some? then Some(GuardModel(policy.value)) else None
  }

  /** Takes the guard back from the storage after a body, and rolls back or commits. */
  method FinishHook(ext: ExtensionStorage) returns (policy: Option<Policy>)
    requires ext.Valid()
    modifies ext.Repr()
    ensures ext.Valid() && ext.rollbackPolicy.None? && policy == old(ext.rollbackPolicy)
    ensures ext.Model() == Finish(ext.types, old(ext.Model()))
    ensures policy.Some? ==> GuardModel(policy.value) == Cleared(old(GuardModel(ext.rollbackPolicy.value)))
  {
    policy := ext.DetachRollbackPolicy();
    if policy.Some? {
      FinishPolicy(policy.value, ext);
    }
  }

  /** Wraps one hook: the engine's policy, if any, is begun, moved into the storage
      for the body, taken back, and then rolled back or committed. */
  method WithRollback(policy: Option<Policy>, ext: ExtensionStorage, hookName: string, ops: seq<Op>)
    returns (policy': Option<Policy>)
    requires ext.Valid()
    requires policy.Some? ==> GuardObject(policy.value) !in ext.Repr()
    modifies ext.Repr(), if policy.Some? then {GuardObject(policy.value)} else {}
    ensures ext.Valid() && ext.rollbackPolicy.None?
    ensures policy' == if policy.Some? then policy else old(ext.rollbackPolicy)
    ensures var body := WrappedBody(ext.types, old(ext.Model()), old(ModelOf(policy)), hookName, ops);
      && ext.Model() == Finish(ext.types, body)
      && ModelOf(policy') == if body.policy.Some? then Some(Cleared(body.policy.value)) else None
  {
    if policy.Some? {
      BeginPolicy(policy.value, hookName);
      ext.AttachRollbackPolicy(policy.value);
    }
    ext.RunBody(ops);
    policy' := FinishHook(ext);
  }
}
