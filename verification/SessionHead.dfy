/**
 Session heads: the persisted form of a session, and what a reload reads back
 from the extension storage after any run of storage operations or hooks.
 */
module SessionHead {
  import opened Options
  import opened ExtensionModel
  import opened RollbackTheorems
  import Objects = ExtensionObjects

  /** `Later` stands for variants added to the non-exhaustive enum after the five named ones. */
  datatype AgentState =
    | Idle
    | Predicting(generationId: nat)
    | ExecutingTools(generationId: nat)
    | SubRoutine(handle: string)
    | Failure
    | Later(name: string)

  datatype Flattened =
    | FlatIdle
    | FlatPredicting(generationId: nat)
    | FlatExecutingTools(generationId: nat)
    | FlatSubRoutine(handle: string)
    | FlatFailure

  function Flatten(state: AgentState): Flattened {
    match state
    case Idle => FlatIdle
    case Predicting(g) => FlatPredicting(g)
    case ExecutingTools(g) => FlatExecutingTools(g)
    case SubRoutine(h) => FlatSubRoutine(h)
    case Failure => FlatFailure
    case Later(_) => FlatIdle
  }

  function Unflatten(state: Flattened): AgentState {
    match state
    case FlatIdle => Idle
    case FlatPredicting(g) => Predicting(g)
    case FlatExecutingTools(g) => ExecutingTools(g)
    case FlatSubRoutine(h) => SubRoutine(h)
    case FlatFailure => Failure
  }

  function FlattenAll(states: seq<AgentState>): seq<Flattened> {
    if states == [] then [] else [Flatten(states[0])] + FlattenAll(states[1..])
  }

  function UnflattenAll(states: seq<Flattened>): seq<AgentState> {
    if states == [] then [] else [Unflatten(states[0])] + UnflattenAll(states[1..])
  }

  /** A session with its messages (`M`) and running tools (`T`). */
  datatype Session<M, T> = Session(
    id: string,
    history: seq<M>,
    persistedMsgCount: nat,
    state: AgentState,
    stateStack: seq<AgentState>,
    extensions: Store,
    activeTools: seq<T>,
    pendingAssistantText: string)

  datatype SchemaVersion = V1

  datatype Head = Head(
    version: SchemaVersion,
    id: string,
    parentId: Option<string>,
    state: Flattened,
    stateStack: seq<Flattened>,
    extensions: map<string, Blob>,
    persistedMsgCount: nat,
    compactionIndex: nat,
    checksum: Option<nat>)

  function NewSession<M, T>(id: string): Session<M, T> {
    Session(id, [], 0, Idle, [], EMPTY_STORE, [], "")
  }

  function FromSession<M, T>(s: Session<M, T>): Head {
    Head(V1, s.id, None, Flatten(s.state), FlattenAll(s.stateStack), s.extensions.cold, s.persistedMsgCount, 0, None)
  }

  function ToSession<M, T>(h: Head, history: seq<M>): Session<M, T> {
    NewSession(h.id).(
      history := history,
      persistedMsgCount := h.persistedMsgCount,
      state := Unflatten(h.state),
      stateStack := UnflattenAll(h.stateStack),
      extensions := EMPTY_STORE.(cold := h.extensions))
  }

  /** What a session becomes by being saved and loaded. */
  function Reload<M, T>(s: Session<M, T>): Session<M, T> {
    ToSession(FromSession(s), s.history)
  }

  /** A session whose fields are assigned in place. */
  class LiveSession<M, T> {
    var id: string
    var history: seq<M>
    var persistedMsgCount: nat
    var state: AgentState
    var stateStack: seq<AgentState>
    var extensions: Objects.ExtensionStorage
    var activeTools: seq<T>
    var pendingAssistantText: string

    ghost function Model(): Session<M, T>
      reads this, extensions.Repr()
    {
      Session(id, history, persistedMsgCount, state, stateStack, extensions.Model(), activeTools, pendingAssistantText)
    }

    constructor (types: Types, id: string)
      ensures Model() == NewSession(id)
      ensures extensions.Valid() && extensions.types == types && fresh(extensions.Repr())
    {
      this.id, history, persistedMsgCount := id, [], 0;
      state, stateStack := Idle, [];
      extensions := new Objects.ExtensionStorage(types);
      activeTools, pendingAssistantText := [], "";
    }
  }

  method BuildSession<M, T>(types: Types, h: Head, history: seq<M>) returns (s: LiveSession<M, T>)
    ensures fresh(s) && s.Model() == ToSession(h, history)
    ensures s.extensions.Valid() && s.extensions.types == types
  {
    s := new LiveSession(types, h.id);
    s.history := history;
    s.persistedMsgCount := h.persistedMsgCount;
    s.state := Unflatten(h.state);
    s.stateStack := UnflattenAll(h.stateStack);
    s.extensions.RestoreColdSnapshot(h.extensions);
  }

  // ---------------------------------------------------------------------------
  // Round trips
  // ---------------------------------------------------------------------------

  /** Each named state has its own persisted form, with its payload; a later variant is saved as idle. */
  lemma StatesKeepTheirNames(a: AgentState)
    ensures var f := Flatten(a);
      && (f.FlatIdle? <==> a.Idle? || a.Later?)
      && (f.FlatPredicting? <==> a.Predicting?) && (a.Predicting? ==> f.generationId == a.generationId)
      && (f.FlatExecutingTools? <==> a.ExecutingTools?) && (a.ExecutingTools? ==> f.generationId == a.generationId)
      && (f.FlatSubRoutine? <==> a.SubRoutine?) && (a.SubRoutine? ==> f.handle == a.handle)
      && (f.FlatFailure? <==> a.Failure?)
  {
  }

  lemma {:induction false} StackIsFlattened(states: seq<AgentState>, i: nat)
    requires i < |states|
    ensures |FlattenAll(states)| == |states| && FlattenAll(states)[i] == Flatten(states[i])
  {
    if i > 0 {
      StackIsFlattened(states[1..], i - 1);
    } else if |states| > 1 {
      StackIsFlattened(states[1..], 0);
    }
  }

  /** What a saved head says, field by field, and what a load takes from it. */
  lemma HeadSays<M, T>(s: Session<M, T>, i: nat)
    ensures var h := FromSession(s);
      && h.version == V1 && h.id == s.id && h.persistedMsgCount == s.persistedMsgCount
      && h.extensions == s.extensions.cold
      && h.parentId == None && h.compactionIndex == 0 && h.checksum == None
      && (h.state.FlatPredicting? <==> s.state.Predicting?) && (h.state.FlatExecutingTools? <==> s.state.ExecutingTools?)
      && (h.state.FlatSubRoutine? <==> s.state.SubRoutine?) && (h.state.FlatFailure? <==> s.state.Failure?)
      && (i < |s.stateStack| ==> i < |h.stateStack| && h.stateStack[i] == Flatten(s.stateStack[i]))
  {
    StatesKeepTheirNames(s.state);
    if i < |s.stateStack| { StackIsFlattened(s.stateStack, i); }
  }

  lemma {:induction false} StackRoundTrip(states: seq<AgentState>)
    ensures UnflattenAll(FlattenAll(states)) == states
       <==> forall i :: 0 <= i < |states| ==> !states[i].Later?
    ensures |UnflattenAll(FlattenAll(states))| == |states|
  {
    if states != [] {
      var flat := FlattenAll(states);
      StackRoundTrip(states[1..]);
      assert flat[1..] == FlattenAll(states[1..]);
      assert states == [states[0]] + states[1..];
      var back := UnflattenAll(flat);
      assert back == [Unflatten(Flatten(states[0]))] + UnflattenAll(FlattenAll(states[1..]));
      assert back[1..] == UnflattenAll(FlattenAll(states[1..])) && back[0] == Unflatten(Flatten(states[0]));
    }
  }

  lemma {:induction false} FlatStackRoundTrip(states: seq<Flattened>)
    ensures FlattenAll(UnflattenAll(states)) == states
  {
    if states != [] {
      FlatStackRoundTrip(states[1..]);
      assert UnflattenAll(states)[1..] == UnflattenAll(states[1..]);
    }
  }

  /** Saving and loading with the same history keeps identity, history, message count
      and blobs; state and stack exactly when no state is of a later variant. */
  lemma SessionRoundTrip<M, T>(s: Session<M, T>)
    ensures var r := Reload(s);
      && r.id == s.id && r.history == s.history && r.persistedMsgCount == s.persistedMsgCount
      && r.extensions.cold == s.extensions.cold
      && ((r.state == s.state && r.stateStack == s.stateStack)
          <==> !s.state.Later? && forall i :: 0 <= i < |s.stateStack| ==> !s.stateStack[i].Later?)
      && r.extensions.hot == map[] && r.activeTools == [] && r.pendingAssistantText == ""
  {
    StackRoundTrip(s.stateStack);
  }

  /** Saving again what was loaded gives the same head exactly when it carried no
      parent, compaction mark or checksum: those three fields are not kept. */
  lemma HeadRoundTripIff<M, T>(h: Head, history: seq<M>)
    ensures FromSession(ToSession<M, T>(h, history)) == h
       <==> h.parentId.None? && h.compactionIndex == 0 && h.checksum.None?
  {
    FlatStackRoundTrip(h.stateStack);
    var s: Session<M, T> := ToSession(h, history);
  }

  // ---------------------------------------------------------------------------
  // What a reload reads
  // ---------------------------------------------------------------------------

  /** Blobs decode to the value they were made from. */
  ghost predicate CodecCorrect(types: Types) {
    forall t, v :: types(t).serialize(v).Some? ==> types(t).deserialize(types(t).serialize(v).value) == Some(v)
  }

  ghost predicate DistinctExtIds(types: Types) {
    forall t, u :: t != u ==> types(t).extId != types(u).extId
  }

  /** The value an operation persists for a type, if it does. */
  function Persists(types: Types, s: Store, op: Op, t: TypeId): Option<Value> {
    match op
    case InsertOp(u, v) =>
      if u == t && !types(t).strategy.NoSnapshot? && types(t).serialize(v).Some? then Some(v) else None
    case HydrateOp(extId, blob) =>
      if extId == types(t).extId && Hydratable(s, extId) then Some(Decoded(types(t), blob)) else None
    case _ => None
  }

  /** The last value a run persisted for a type, else what the blobs held before. */
  function LastPersisted(types: Types, s: Store, ops: seq<Op>, t: TypeId): Value {
    if ops == [] then ColdView(types, s.cold, t)
    else
      var n := |ops| - 1;
      match Persists(types, Run(types, s, ops[..n]), ops[n], t)
      case Some(v) => v
      case None => LastPersisted(types, s, ops[..n], t)
  }

  lemma StepPersists(types: Types, s: Store, op: Op, t: TypeId)
    requires CodecCorrect(types) && DistinctExtIds(types)
    ensures ColdView(types, Step(types, s, op).cold, t)
         == match Persists(types, s, op, t)
            case Some(v) => v
            case None => ColdView(types, s.cold, t)
  {
  }

  lemma {:induction false} ColdHoldsLastPersisted(types: Types, s: Store, ops: seq<Op>, t: TypeId)
    requires CodecCorrect(types) && DistinctExtIds(types)
    ensures ColdView(types, Run(types, s, ops).cold, t) == LastPersisted(types, s, ops, t)
  {
    if ops != [] {
      var n := |ops| - 1;
      ColdHoldsLastPersisted(types, s, ops[..n], t);
      StepPersists(types, Run(types, s, ops[..n]), ops[n], t);
    }
  }

  /** The first access after a reload reads the last persisted value of the run, whatever
      the run did to hot values; so a type keeps its view across the reload exactly when
      its hot value, if any, is the last persisted one. */
  lemma ReloadReadsLastPersisted<M, T>(types: Types, start: Session<M, T>, ops: seq<Op>, t: TypeId)
    requires CodecCorrect(types) && DistinctExtIds(types)
    ensures var ran := start.(extensions := Run(types, start.extensions, ops));
      var persisted := LastPersisted(types, start.extensions, ops, t);
      && GetOrInsertDefault(types, Reload(ran).extensions, t).hot == map[t := persisted]
      && (View(types, Reload(ran).extensions, t) == View(types, ran.extensions, t)
          <==> (t in ran.extensions.hot ==> ran.extensions.hot[t] == persisted))
  {
    ColdHoldsLastPersisted(types, start.extensions, ops, t);
  }

  // ---------------------------------------------------------------------------
  // Reloads and hooks
  // ---------------------------------------------------------------------------

  /** Whether a hook commits or rolls back makes no difference to what a reload reads. */
  lemma RollbackDoesNotReachBlobs(types: Types, s: Store, g: Guard, hook: string, ops: seq<Op>)
    requires Valid(s)
    ensures RolledBack(types, s, g, hook, ops).cold == Committed(types, s, g, hook, ops).cold
    ensures DrivenHook(types, s, g, hook, ops).cold == Run(types, Attach(s, BeginHook(g, hook)), ops).cold
  {
    var t: TypeId := EVENT_LOG + 1;
    RollbackOutcome(types, s, g, hook, ops, t);
    CommitOutcome(types, s, g, hook, ops, t);
    DriverRollsBackExactlyWhenFull(types, s, g, hook, ops);
  }

  /** After a driven hook, committed or not, a reload reads the last value the hook's
      operations persisted, else what a reload before the hook would have read. */
  lemma ReloadAfterHook<M, T>(types: Types, s: Session<M, T>, g: Guard, hook: string, ops: seq<Op>, t: TypeId)
    requires Valid(s.extensions) && CodecCorrect(types) && DistinctExtIds(types)
    ensures var after := s.(extensions := DrivenHook(types, s.extensions, g, hook, ops));
      View(types, Reload(after).extensions, t)
      == LastPersisted(types, Attach(s.extensions, BeginHook(g, hook)), ops, t)
  {
    RollbackDoesNotReachBlobs(types, s.extensions, g, hook, ops);
    ColdHoldsLastPersisted(types, Attach(s.extensions, BeginHook(g, hook)), ops, t);
  }

  /** What the operations of a run persisted last for a type, if they persisted anything. */
  function PersistedBy(types: Types, s: Store, ops: seq<Op>, t: TypeId): Option<Value> {
    if ops == [] then None
    else
      var n := |ops| - 1;
      var last := Persists(types, Run(types, s, ops[..n]), ops[n], t);
      if last.Some? then last else PersistedBy(types, s, ops[..n], t)
  }

  lemma {:induction false} LastPersistedIs(types: Types, s: Store, ops: seq<Op>, t: TypeId)
    ensures LastPersisted(types, s, ops, t)
         == match PersistedBy(types, s, ops, t)
            case Some(v) => v
            case None => ColdView(types, s.cold, t)
  {
    if ops != [] { LastPersistedIs(types, s, ops[..|ops| - 1], t); }
  }

  /** A hook, committed or rolled back by the driver, is invisible to a reload exactly when the
      last value its operations persisted for the type, if any, is what a reload read before. */
  lemma HookIsInvisibleToReloadIff<M, T>(types: Types, s: Session<M, T>, g: Guard, hook: string, ops: seq<Op>, t: TypeId)
    requires Valid(s.extensions) && CodecCorrect(types) && DistinctExtIds(types)
    ensures var after := s.(extensions := DrivenHook(types, s.extensions, g, hook, ops));
      var before := View(types, Reload(s).extensions, t);
      var persisted := PersistedBy(types, Attach(s.extensions, BeginHook(g, hook)), ops, t);
      View(types, Reload(after).extensions, t) == before <==> persisted.None? || persisted.value == before
  {
    var at := Attach(s.extensions, BeginHook(g, hook));
    ReloadAfterHook(types, s, g, hook, ops, t);
    LastPersistedIs(types, at, ops, t);
    assert View(types, Reload(s).extensions, t) == ColdView(types, at.cold, t);
  }

  /** The hook of the counterexample: it writes a critical type, then one that weighs exactly
      the budget, and inserts the critical one. */
  function InsertingHook(t: TypeId, w: Value, u: TypeId, x: Value, v: Value): seq<Op> {
    [GetOrInsert(t, w)] + [GetOrInsert(u, x)] + [InsertOp(t, v)]
  }

  lemma FirstAccess(types: Types, s: Store, t: TypeId, w: Value)
    ensures Run(types, s, [GetOrInsert(t, w)]) == Step(types, s, GetOrInsert(t, w))
    ensures Touches(types, s, [GetOrInsert(t, w)]) == [] + [Snapshot(t, View(types, s, t))]
  {
    assert [] + [GetOrInsert(t, w)] == [GetOrInsert(t, w)];
    RunSnoc(types, s, [], GetOrInsert(t, w));
    AccessTouches(types, s, [], t, w);
  }

  lemma SecondAccess(types: Types, s: Store, t: TypeId, w: Value, u: TypeId, x: Value)
    requires t != u
    ensures Touches(types, s, [GetOrInsert(t, w)] + [GetOrInsert(u, x)])
         == [] + [Snapshot(t, View(types, s, t))] + [Snapshot(u, View(types, s, u))]
  {
    FirstAccess(types, s, t, w);
    TrackedStep(types, s, GetOrInsert(t, w), u);
    IdsSnoc([], Snapshot(t, View(types, s, t)));
    AccessTouches(types, s, [GetOrInsert(t, w)], u, x);
  }

  lemma InsertingHookTouches(types: Types, s: Store, t: TypeId, w: Value, u: TypeId, x: Value, v: Value)
    requires t != u
    ensures Touches(types, s, InsertingHook(t, w, u, x, v))
         == [] + [Snapshot(t, View(types, s, t))] + [Snapshot(u, View(types, s, u))]
  {
    SecondAccess(types, s, t, w, u, x);
    RunSnoc(types, s, [GetOrInsert(t, w)] + [GetOrInsert(u, x)], InsertOp(t, v));
  }

  lemma CriticalKept(types: Types, max: nat, first: Snapshot)
    requires types(first.id).strategy.CriticalFullClone?
    ensures Kept(types, Flat(max), "", [] + [first]) == [] + [first]
    ensures Weight(types, Flat(max), [] + [first], Standard) == 0
  {
    KeptSnoc(types, Flat(max), "", [], first);
    WeightSnoc(types, Flat(max), [], first, Standard);
  }

  /** A touch that weighs exactly the budget is kept behind others that weigh nothing. */
  lemma FullTouchKept(types: Types, max: nat, touches: seq<Snapshot>, second: Snapshot)
    requires types(second.id).strategy.FullClone? && types(second.id).weight(second.value) == max
    requires Kept(types, Flat(max), "", touches) == touches && Weight(types, Flat(max), touches, Standard) == 0
    ensures Kept(types, Flat(max), "", touches + [second]) == touches + [second]
    ensures Weight(types, Flat(max), touches + [second], Standard) == max
  {
    KeptSnoc(types, Flat(max), "", touches, second);
    WeightSnoc(types, Flat(max), touches, second, Standard);
  }

  lemma LookupFirst(first: Snapshot, second: Snapshot)
    requires first.id != second.id
    ensures Lookup([] + [first] + [second], first.id) == Some(first.value)
  {
    LookupSnoc([], first, first.id);
    LookupSnoc([] + [first], second, first.id);
  }

  /** Its charged weight is the budget, so the driver rolls it back, with the critical type kept. */
  lemma InsertingHookIsFull(types: Types, s: Store, max: nat, t: TypeId, w: Value, u: TypeId, x: Value, v: Value)
    requires t != u && types(t).strategy.CriticalFullClone? && types(u).strategy.FullClone?
    requires types(u).weight(View(types, s, u)) == max
    ensures var g := Guard(Flat(max), None, 0, 0, {}, "");
      var ops := InsertingHook(t, w, u, x, v);
      ExactlyFull(types, s, g, "", ops) && Lookup(KeptByHook(types, s, g, "", ops), t) == Some(View(types, s, t))
  {
    var g := Guard(Flat(max), None, 0, 0, {}, "");
    var at := Attach(s, BeginHook(g, ""));
    var first, second := Snapshot(t, View(types, s, t)), Snapshot(u, View(types, s, u));
    assert View(types, at, t) == first.value && View(types, at, u) == second.value;
    InsertingHookTouches(types, at, t, w, u, x, v);
    CriticalKept(types, max, first);
    FullTouchKept(types, max, [] + [first], second);
    LookupFirst(first, second);
    assert KeptByHook(types, s, g, "", InsertingHook(t, w, u, x, v)) == [] + [first] + [second];
  }

  lemma InsertingHookPersists(types: Types, s: Store, t: TypeId, w: Value, u: TypeId, x: Value, v: Value)
    requires types(t).strategy.CriticalFullClone? && types(t).serialize(v).Some?
    ensures LastPersisted(types, s, InsertingHook(t, w, u, x, v), t) == v
  {
    var two := [GetOrInsert(t, w)] + [GetOrInsert(u, x)];
    assert InsertingHook(t, w, u, x, v)[..2] == two;
  }

  /** "A rolled-back hook leaves no trace" fails across a reload: the driver rolls this hook
      back, the critical type reads as before in memory, and as the inserted value when the
      session is loaded again. */
  lemma InsertOutlivesRollback<M, T>(types: Types, s: Session<M, T>, max: nat, t: TypeId, w: Value, u: TypeId, x: Value, v: Value)
    requires Valid(s.extensions) && CodecCorrect(types) && DistinctExtIds(types)
    requires t != EVENT_LOG && u != t && types(u).strategy.FullClone? && types(u).weight(View(types, s.extensions, u)) == max
    requires types(t).strategy.CriticalFullClone? && types(t).serialize(v).Some?
    ensures var g, ops := Guard(Flat(max), None, 0, 0, {}, ""), InsertingHook(t, w, u, x, v);
      var after := s.(extensions := DrivenHook(types, s.extensions, g, "", ops));
      && after.extensions == RolledBack(types, s.extensions, g, "", ops)
      && View(types, after.extensions, t) == View(types, s.extensions, t)
      && View(types, Reload(after).extensions, t) == v
  {
    var g, ops := Guard(Flat(max), None, 0, 0, {}, ""), InsertingHook(t, w, u, x, v);
    InsertingHookIsFull(types, s.extensions, max, t, w, u, x, v);
    DriverRollsBackExactlyWhenFull(types, s.extensions, g, "", ops);
    RollbackOutcome(types, s.extensions, g, "", ops, t);
    ReloadAfterHook(types, s, g, "", ops, t);
    InsertingHookPersists(types, Attach(s.extensions, BeginHook(g, "")), t, w, u, x, v);
  }
}
