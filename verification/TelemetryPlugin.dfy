/**
 The telemetry plugin's `after_prediction` on the storage object, proved to make
 exactly the accesses that `Telemetry` lists.
 */
module TelemetryPlugin {
  import opened Options
  import opened ExtensionModel
  import opened ExtensionObjects
  import opened RollbackTheorems
  import opened T = Telemetry

  method DrainTraces(ext: ExtensionStorage) returns (entries: seq<string>)
    requires ext.Valid()
    modifies ext.Repr()
    ensures ext.Valid() && ext.rollbackPolicy == old(ext.rollbackPolicy)
    ensures var traces := View(ext.types, old(ext.Model()), TRACE_LOG);
      entries == Entries(traces) && ext.Model() == Step(ext.types, old(ext.Model()), GetOrInsert(TRACE_LOG, EmptiedTraces(traces)))
  {
    var traces := ext.GetOrInsertDefault(TRACE_LOG);
    entries := Entries(traces);
    ext.Assign(TRACE_LOG, EmptiedTraces(traces));
  }

  /** The loop over the drained transitions: who preempted, and how many different plugins did. */
  method Summarise(entries: seq<string>) returns (unique: nat, last: Option<string>)
    ensures unique == |set e | e in entries|
    ensures last == if entries == [] then None else Some(entries[|entries| - 1])
  {
    var seen: set<string> := {};
    last := None;
    for i := 0 to |entries|
      invariant seen == set e | e in entries[..i]
      invariant last == if i == 0 then None else Some(entries[i - 1])
    {
      assert entries[..i + 1] == entries[..i] + [entries[i]];
      seen := seen + {entries[i]};
      last := Some(entries[i]);
    }
    assert entries[..|entries|] == entries;
    unique := |seen|;
  }

  /** Updates the summary behind a reference to it. */
  method SummariseInto(summary: Value, entries: seq<string>) returns (updated: Value)
    requires entries != []
    ensures updated == Summarised(summary, entries)
  {
    if !summary.ConflictSummary? { return summary; }
    var unique, last := Summarise(entries);
    updated := ConflictSummary(summary.total + |entries|, unique, last);
  }

  method RecordConflicts(ext: ExtensionStorage, entries: seq<string>)
    requires ext.Valid() && entries != []
    modifies ext.Repr()
    ensures ext.Valid() && ext.rollbackPolicy == old(ext.rollbackPolicy)
    ensures ext.Model()
         == Step(ext.types, old(ext.Model()), GetOrInsert(CONFLICTS, Summarised(View(ext.types, old(ext.Model()), CONFLICTS), entries)))
  {
    var summary := ext.GetOrInsertDefault(CONFLICTS);
    var updated := SummariseInto(summary, entries);
    ext.Assign(CONFLICTS, updated);
  }

  method DrainEvents(ext: ExtensionStorage) returns (events: seq<RollbackEvent>)
    requires ext.Valid()
    modifies ext.Repr()
    ensures ext.Valid() && ext.rollbackPolicy == old(ext.rollbackPolicy)
    ensures var log := View(ext.types, old(ext.Model()), EVENT_LOG);
      events == Events(log) && ext.Model() == Step(ext.types, old(ext.Model()), GetOrInsert(EVENT_LOG, EmptiedLog(log)))
  {
    var log := ext.GetOrInsertDefault(EVENT_LOG);
    events := Events(log);
    ext.Assign(EVENT_LOG, EmptiedLog(log));
  }

  /** Updates the counters behind a reference to the telemetry state. */
  method CountInto(value: Value, events: seq<RollbackEvent>) returns (counted: Value)
    ensures counted == Counted(value, events)
  {
    if !value.TelemetryStats? { return value; }
    var state := new TelemetryState(value.stats);
    state.CountEvents(events);
    counted := TelemetryStats(state.Model());
  }

  method CountDrained(ext: ExtensionStorage, events: seq<RollbackEvent>)
    requires ext.Valid()
    modifies ext.Repr()
    ensures ext.Valid() && ext.rollbackPolicy == old(ext.rollbackPolicy)
    ensures ext.Model()
         == Step(ext.types, old(ext.Model()), GetOrInsert(TELEMETRY, Counted(View(ext.types, old(ext.Model()), TELEMETRY), events)))
  {
    var value := ext.GetOrInsertDefault(TELEMETRY);
    var counted := CountInto(value, events);
    ext.Assign(TELEMETRY, counted);
  }

  /** The first accesses leave the other types' views alone. */
  lemma ConflictOpsElsewhere(types: Types, s: Store, t: TypeId)
    requires t != TRACE_LOG && t != CONFLICTS
    ensures View(types, Run(types, s, ConflictOps(types, s)), t) == View(types, s, t)
  {
    var traces := View(types, s, TRACE_LOG);
    var first := GetOrInsert(TRACE_LOG, EmptiedTraces(traces));
    assert [] + [first] == [first];
    RunSnoc(types, s, [], first);
    TrackedStep(types, s, first, t);
    if Entries(traces) != [] {
      var second := GetOrInsert(CONFLICTS, Summarised(View(types, s, CONFLICTS), Entries(traces)));
      RunSnoc(types, s, [first], second);
      TrackedStep(types, Step(types, s, first), second, t);
    }
  }

  /** The conflict part of `after_prediction`. */
  method DrainConflicts(ext: ExtensionStorage)
    requires ext.Valid()
    modifies ext.Repr()
    ensures ext.Valid() && ext.rollbackPolicy == old(ext.rollbackPolicy)
    ensures ext.Model() == Run(ext.types, old(ext.Model()), ConflictOps(ext.types, old(ext.Model())))
  {
    ghost var s := ext.Model();
    ghost var first := GetOrInsert(TRACE_LOG, EmptiedTraces(View(ext.types, s, TRACE_LOG)));
    var entries := DrainTraces(ext);
    assert [] + [first] == [first];
    RunSnoc(ext.types, s, [], first);
    if entries != [] {
      TrackedStep(ext.types, s, first, CONFLICTS);
      RunSnoc(ext.types, s, [first], GetOrInsert(CONFLICTS, Summarised(View(ext.types, s, CONFLICTS), entries)));
      RecordConflicts(ext, entries);
    }
  }

  /** `after_prediction`: summarises and clears the superseded transitions, then takes the
      rollback events off the log and counts them. */
  method AfterPrediction(ext: ExtensionStorage)
    requires ext.Valid()
    modifies ext.Repr()
    ensures ext.Valid() && ext.rollbackPolicy == old(ext.rollbackPolicy)
    ensures ext.Model() == Run(ext.types, old(ext.Model()), PredictionOps(ext.types, old(ext.Model())))
  {
    ghost var types, s := ext.types, ext.Model();
    ghost var before := ConflictOps(types, s);
    ghost var drain := GetOrInsert(EVENT_LOG, EmptiedLog(View(types, s, EVENT_LOG)));
    ghost var count := GetOrInsert(TELEMETRY, Counted(View(types, s, TELEMETRY), Events(View(types, s, EVENT_LOG))));
    ConflictOpsElsewhere(types, s, EVENT_LOG);
    ConflictOpsElsewhere(types, s, TELEMETRY);
    RunSnoc(types, s, before, drain);
    RunSnoc(types, s, before + [drain], count);
    TrackedStep(types, Run(types, s, before), drain, TELEMETRY);
    DrainConflicts(ext);
    var events := DrainEvents(ext);
    CountDrained(ext, events);
  }
}
