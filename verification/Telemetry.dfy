/**
 Rollback telemetry: counters and per-hook rows kept over every batch of events
 drained from the rollback event log.
 */
module Telemetry {
  import opened Options
  import opened ExtensionModel

  const EMPTY := Stats(0, 0, 0, [])

  predicate Abandoned(e: RollbackEvent) { e.wasRollback && e.budgetExceeded }

  predicate Restored(e: RollbackEvent) { e.wasRollback && !e.budgetExceeded }

  // ---------------------------------------------------------------------------
  // What the counters mean
  // ---------------------------------------------------------------------------

  function One(b: bool): nat { if b then 1 else 0 }

  function CountAbandoned(events: seq<RollbackEvent>): nat {
    if events == [] then 0 else CountAbandoned(events[..|events| - 1]) + One(Abandoned(events[|events| - 1]))
  }

  function CountRestored(events: seq<RollbackEvent>): nat {
    if events == [] then 0 else CountRestored(events[..|events| - 1]) + One(Restored(events[|events| - 1]))
  }

  function AbandonedWeight(events: seq<RollbackEvent>): nat {
    if events == [] then 0
    else
      var last := events[|events| - 1];
      AbandonedWeight(events[..|events| - 1]) + if Abandoned(last) then last.frameWeight else 0
  }

  /** The events of one hook, in order. */
  function OfHook(events: seq<RollbackEvent>, name: string): seq<RollbackEvent> {
    if events == [] then []
    else
      var n := |events| - 1;
      if events[n].hookName == name then OfHook(events[..n], name) + [events[n]] else OfHook(events[..n], name)
  }

  /** The hook names of a stream in the order of their first event. */
  function HookNames(events: seq<RollbackEvent>): seq<string> {
    if events == [] then []
    else
      var n := |events| - 1;
      var before := HookNames(events[..n]);
      if events[n].hookName in before then before else before + [events[n].hookName]
  }

  function RowOf(events: seq<RollbackEvent>, name: string): Row {
    var own := OfHook(events, name);
    Row(name, CountAbandoned(own), CountRestored(own))
  }

  function RowsOf(events: seq<RollbackEvent>, names: seq<string>): seq<Row> {
    if names == [] then [] else RowsOf(events, names[..|names| - 1]) + [RowOf(events, names[|names| - 1])]
  }

  /** The statistics of a whole event stream. */
  function Report(events: seq<RollbackEvent>): Stats {
    Stats(CountAbandoned(events), CountRestored(events), AbandonedWeight(events), RowsOf(events, HookNames(events)))
  }

  // ---------------------------------------------------------------------------
  // What the plugin does
  // ---------------------------------------------------------------------------

  /** Position of a hook's row, or the number of rows. */
  function RowIndex(rows: seq<Row>, name: string): (i: nat)
    ensures i <= |rows|
    ensures i < |rows| ==> rows[i].name == name
    ensures forall j :: 0 <= j < i ==> rows[j].name != name
  {
    if rows == [] then 0
    else if rows[0].name == name then 0
    else 1 + RowIndex(rows[1..], name)
  }

  function CountRow(row: Row, e: RollbackEvent): Row {
    Row(row.name, row.abandoned + One(Abandoned(e)), row.restored + One(Restored(e)))
  }

  function CountRows(rows: seq<Row>, e: RollbackEvent): seq<Row> {
    var i := RowIndex(rows, e.hookName);
    if i < |rows| then rows[i := CountRow(rows[i], e)]
    else rows + [Row(e.hookName, One(Abandoned(e)), One(Restored(e)))]
  }

  function Absorb(s: Stats, e: RollbackEvent): Stats {
    Stats(s.abandonedCount + One(Abandoned(e)), s.restoredCount + One(Restored(e)),
          s.abandonedWeightTotal + (if Abandoned(e) then e.frameWeight else 0), CountRows(s.rows, e))
  }

  function AbsorbAll(s: Stats, events: seq<RollbackEvent>): Stats {
    if events == [] then s else Absorb(AbsorbAll(s, events[..|events| - 1]), events[|events| - 1])
  }

  class TelemetryState {
    var abandonedCount: nat
    var restoredCount: nat
    var abandonedWeightTotal: nat
    var perHookStats: seq<Row>

    function Model(): Stats
      reads this
    {
      Stats(abandonedCount, restoredCount, abandonedWeightTotal, perHookStats)
    }

    constructor (stats: Stats)
      ensures Model() == stats
    {
      abandonedCount, restoredCount := stats.abandonedCount, stats.restoredCount;
      abandonedWeightTotal, perHookStats := stats.abandonedWeightTotal, stats.rows;
    }

    /** Finds the row of a hook by scanning from the front. */
    method FindRow(name: string) returns (i: nat)
      ensures i == RowIndex(perHookStats, name)
    {
      i := 0;
      while i < |perHookStats| && perHookStats[i].name != name
        invariant i <= |perHookStats|
        invariant RowIndex(perHookStats, name) == i + RowIndex(perHookStats[i..], name)
      {
        assert perHookStats[i..][1..] == perHookStats[i + 1..];
        i := i + 1;
      }
      assert i < |perHookStats| ==> perHookStats[i..][0] == perHookStats[i];
    }

    method CountEvent(event: RollbackEvent)
      modifies this
      ensures Model() == Absorb(old(Model()), event)
    {
      if event.wasRollback {
        if event.budgetExceeded {
          abandonedCount := abandonedCount + 1;
          abandonedWeightTotal := abandonedWeightTotal + event.frameWeight;
        } else {
          restoredCount := restoredCount + 1;
        }
      }
      var i := FindRow(event.hookName);
      if i < |perHookStats| {
        var entry := perHookStats[i];
        if event.wasRollback && event.budgetExceeded {
          entry := entry.(abandoned := entry.abandoned + 1);
        } else if event.wasRollback {
          entry := entry.(restored := entry.restored + 1);
        }
        perHookStats := perHookStats[i := entry];
      } else {
        var abandonments := if event.wasRollback && event.budgetExceeded then 1 else 0;
        var restorations := if event.wasRollback && !event.budgetExceeded then 1 else 0;
        perHookStats := perHookStats + [Row(event.hookName, abandonments, restorations)];
      }
    }

    /** The counting loop of `after_prediction`, on the events it took from the log. */
    method CountEvents(events: seq<RollbackEvent>)
      modifies this
      ensures Model() == AbsorbAll(old(Model()), events)
    {
      for i := 0 to |events|
        invariant Model() == AbsorbAll(old(Model()), events[..i])
      {
        assert events[..i + 1][..i] == events[..i];
        CountEvent(events[i]);
      }
      assert events[..|events|] == events;
    }
  }

  // ---------------------------------------------------------------------------
  // What the plugin does to the storage
  // ---------------------------------------------------------------------------

  function Entries(traces: Value): seq<string> {
    if traces.TraceLog? then traces.preemptedBy else []
  }

  function Events(log: Value): seq<RollbackEvent> {
    if log.EventLog? then log.events else []
  }

  function EmptiedTraces(traces: Value): Value {
    if traces.TraceLog? then TraceLog([]) else traces
  }

  function EmptiedLog(log: Value): Value {
    if log.EventLog? then EventLog([]) else log
  }

  /** The conflict summary after a batch of superseded transitions. */
  function Summarised(summary: Value, entries: seq<string>): Value
    requires entries != []
  {
    if summary.ConflictSummary? then
      ConflictSummary(summary.total + |entries|, |set e | e in entries|, Some(entries[|entries| - 1]))
    else summary
  }

  function Counted(state: Value, events: seq<RollbackEvent>): Value {
    if state.TelemetryStats? then TelemetryStats(AbsorbAll(state.stats, events)) else state
  }

  /** The accesses `after_prediction` makes before it drains the rollback log. */
  function ConflictOps(types: Types, s: Store): seq<Op> {
    var traces := View(types, s, TRACE_LOG);
    var drain := [GetOrInsert(TRACE_LOG, EmptiedTraces(traces))];
    if Entries(traces) == [] then drain
    else drain + [GetOrInsert(CONFLICTS, Summarised(View(types, s, CONFLICTS), Entries(traces)))]
  }

  /** All accesses of `after_prediction`, with the values it finally writes. */
  function PredictionOps(types: Types, s: Store): seq<Op> {
    var log, state := View(types, s, EVENT_LOG), View(types, s, TELEMETRY);
    ConflictOps(types, s) + [GetOrInsert(EVENT_LOG, EmptiedLog(log))] + [GetOrInsert(TELEMETRY, Counted(state, Events(log)))]
  }

  // ---------------------------------------------------------------------------
  // The counters report the stream
  // ---------------------------------------------------------------------------

  lemma OfHookSnoc(events: seq<RollbackEvent>, e: RollbackEvent, name: string)
    ensures OfHook(events + [e], name) == if e.hookName == name then OfHook(events, name) + [e] else OfHook(events, name)
  {
    assert (events + [e])[..|events|] == events;
  }

  lemma RowSnoc(events: seq<RollbackEvent>, e: RollbackEvent, name: string)
    ensures RowOf(events + [e], name)
         == if e.hookName == name then CountRow(RowOf(events, name), e) else RowOf(events, name)
  {
    OfHookSnoc(events, e, name);
    var own := OfHook(events, name);
    assert (own + [e])[..|own|] == own;
  }

  lemma {:induction false} RowsAt(events: seq<RollbackEvent>, names: seq<string>, i: nat)
    requires i < |names|
    ensures |RowsOf(events, names)| == |names| && RowsOf(events, names)[i] == RowOf(events, names[i])
  {
    var n := |names| - 1;
    if i < n { RowsAt(events, names[..n], i); } else if n > 0 { RowsAt(events, names[..n], 0); }
  }

  lemma {:induction false} RowsLength(events: seq<RollbackEvent>, names: seq<string>)
    ensures |RowsOf(events, names)| == |names|
  {
    if names != [] { RowsAt(events, names, 0); }
  }

  ghost predicate Distinct(names: seq<string>) {
    forall i, j :: 0 <= i < j < |names| ==> names[i] != names[j]
  }

  /** Exactly the names of the stream are listed, each once. */
  lemma {:induction false} NamesAreExact(events: seq<RollbackEvent>, name: string)
    ensures Distinct(HookNames(events))
    ensures name in HookNames(events) <==> OfHook(events, name) != []
  {
    if events != [] { NamesAreExact(events[..|events| - 1], name); }
  }

  lemma NamesSnoc(events: seq<RollbackEvent>, e: RollbackEvent)
    ensures HookNames(events + [e])
         == if e.hookName in HookNames(events) then HookNames(events) else HookNames(events) + [e.hookName]
  {
    assert (events + [e])[..|events|] == events;
  }

  /** Where the scan finds the row of a hook, its name stands in the list of names. */
  lemma RowIndexOfNames(events: seq<RollbackEvent>, name: string)
    ensures var names := HookNames(events);
      var i := RowIndex(RowsOf(events, names), name);
      && |RowsOf(events, names)| == |names|
      && (i < |names| ==> names[i] == name)
      && (i == |names| ==> name !in names)
  {
    var names := HookNames(events);
    RowsLength(events, names);
    forall j | 0 <= j < |names| ensures RowsOf(events, names)[j].name == names[j] { RowsAt(events, names, j); }
  }

  lemma KnownHookRows(events: seq<RollbackEvent>, e: RollbackEvent)
    requires e.hookName in HookNames(events)
    ensures CountRows(RowsOf(events, HookNames(events)), e) == RowsOf(events + [e], HookNames(events))
  {
    var names := HookNames(events);
    var rows, rows' := RowsOf(events, names), RowsOf(events + [e], names);
    RowIndexOfNames(events, e.hookName);
    RowsLength(events + [e], names);
    NamesAreExact(events, e.hookName);
    forall j | 0 <= j < |names| ensures CountRows(rows, e)[j] == rows'[j] {
      RowsAt(events, names, j);
      RowsAt(events + [e], names, j);
      RowSnoc(events, e, names[j]);
    }
  }

  lemma NewHookRow(events: seq<RollbackEvent>, e: RollbackEvent)
    requires OfHook(events, e.hookName) == []
    ensures RowOf(events + [e], e.hookName) == Row(e.hookName, One(Abandoned(e)), One(Restored(e)))
  {
    RowSnoc(events, e, e.hookName);
  }

  lemma NewHookRows(events: seq<RollbackEvent>, e: RollbackEvent)
    requires e.hookName !in HookNames(events)
    ensures CountRows(RowsOf(events, HookNames(events)), e) == RowsOf(events + [e], HookNames(events) + [e.hookName])
  {
    var names := HookNames(events);
    var longer := names + [e.hookName];
    RowIndexOfNames(events, e.hookName);
    RowsLength(events + [e], longer);
    NamesAreExact(events, e.hookName);
    NewHookRow(events, e);
    forall j | 0 <= j < |longer| ensures CountRows(RowsOf(events, names), e)[j] == RowsOf(events + [e], longer)[j] {
      RowsAt(events + [e], longer, j);
      if j < |names| {
        RowsAt(events, names, j);
        RowSnoc(events, e, names[j]);
      }
    }
  }

  lemma TotalsSnoc(events: seq<RollbackEvent>, e: RollbackEvent)
    ensures CountAbandoned(events + [e]) == CountAbandoned(events) + One(Abandoned(e))
    ensures CountRestored(events + [e]) == CountRestored(events) + One(Restored(e))
    ensures AbandonedWeight(events + [e]) == AbandonedWeight(events) + if Abandoned(e) then e.frameWeight else 0
  {
    assert (events + [e])[..|events|] == events;
  }

  /** Counting one more event turns the report of a stream into the report of the longer one. */
  lemma AbsorbReports(events: seq<RollbackEvent>, e: RollbackEvent)
    ensures Absorb(Report(events), e) == Report(events + [e])
  {
    TotalsSnoc(events, e);
    NamesSnoc(events, e);
    if e.hookName in HookNames(events) { KnownHookRows(events, e); } else { NewHookRows(events, e); }
  }

  lemma ReportSnoc(events: seq<RollbackEvent>)
    requires events != []
    ensures Report(events) == Absorb(Report(events[..|events| - 1]), events[|events| - 1])
  {
    AbsorbReports(events[..|events| - 1], events[|events| - 1]);
    assert events[..|events| - 1] + [events[|events| - 1]] == events;
  }

  lemma AppendLast(stream: seq<RollbackEvent>, events: seq<RollbackEvent>)
    requires events != []
    ensures stream + events[..|events| - 1] + [events[|events| - 1]] == stream + events
  {
  }

  lemma {:induction false} AbsorbAllReports(stream: seq<RollbackEvent>, events: seq<RollbackEvent>)
    ensures AbsorbAll(Report(stream), events) == Report(stream + events)
  {
    if events == [] {
      assert stream + events == stream;
    } else {
      var n := |events| - 1;
      AbsorbAllReports(stream, events[..n]);
      AbsorbReports(stream + events[..n], events[n]);
      AppendLast(stream, events);
    }
  }

  /** Successive calls of `after_prediction`, each with the events drained by it. */
  function AfterCalls(batches: seq<seq<RollbackEvent>>): Stats {
    if batches == [] then EMPTY else AbsorbAll(AfterCalls(batches[..|batches| - 1]), batches[|batches| - 1])
  }

  function Stream(batches: seq<seq<RollbackEvent>>): seq<RollbackEvent> {
    if batches == [] then [] else Stream(batches[..|batches| - 1]) + batches[|batches| - 1]
  }

  /** Over every sequence of calls the state is the report of the whole drained stream. */
  lemma {:induction false} CallsReportStream(batches: seq<seq<RollbackEvent>>)
    ensures AfterCalls(batches) == Report(Stream(batches))
  {
    if batches != [] {
      var n := |batches| - 1;
      CallsReportStream(batches[..n]);
      AbsorbAllReports(Stream(batches[..n]), batches[n]);
    }
  }

  // ---------------------------------------------------------------------------
  // Rows and totals
  // ---------------------------------------------------------------------------

  function SumAbandoned(rows: seq<Row>): nat {
    if rows == [] then 0 else SumAbandoned(rows[..|rows| - 1]) + rows[|rows| - 1].abandoned
  }

  function SumRestored(rows: seq<Row>): nat {
    if rows == [] then 0 else SumRestored(rows[..|rows| - 1]) + rows[|rows| - 1].restored
  }

  lemma {:induction false} SumUpdate(rows: seq<Row>, i: nat, row: Row)
    requires i < |rows|
    ensures SumAbandoned(rows[i := row]) + rows[i].abandoned == SumAbandoned(rows) + row.abandoned
    ensures SumRestored(rows[i := row]) + rows[i].restored == SumRestored(rows) + row.restored
  {
    var n := |rows| - 1;
    if i < n {
      SumUpdate(rows[..n], i, row);
      assert rows[i := row][..n] == rows[..n][i := row];
    } else {
      assert rows[i := row][..n] == rows[..n];
    }
  }

  lemma SumCount(rows: seq<Row>, e: RollbackEvent)
    ensures SumAbandoned(CountRows(rows, e)) == SumAbandoned(rows) + One(Abandoned(e))
    ensures SumRestored(CountRows(rows, e)) == SumRestored(rows) + One(Restored(e))
  {
    var i := RowIndex(rows, e.hookName);
    if i < |rows| {
      SumUpdate(rows, i, CountRow(rows[i], e));
    } else {
      var row := Row(e.hookName, One(Abandoned(e)), One(Restored(e)));
      assert (rows + [row])[..|rows|] == rows;
    }
  }

  /** The columns sum to the totals. */
  predicate Balanced(s: Stats) {
    SumAbandoned(s.rows) == s.abandonedCount && SumRestored(s.rows) == s.restoredCount
  }

  lemma AbsorbKeepsBalance(s: Stats, e: RollbackEvent)
    requires Balanced(s)
    ensures Balanced(Absorb(s, e))
  {
    SumCount(s.rows, e);
  }

  lemma {:induction false} ReportIsBalanced(events: seq<RollbackEvent>)
    ensures Balanced(Report(events))
  {
    if events != [] {
      ReportIsBalanced(events[..|events| - 1]);
      ReportSnoc(events);
      AbsorbKeepsBalance(Report(events[..|events| - 1]), events[|events| - 1]);
    }
  }

  lemma RowsAreExact(events: seq<RollbackEvent>, name: string)
    ensures var rows := Report(events).rows;
      && (forall i, j :: 0 <= i < j < |rows| ==> rows[i].name != rows[j].name)
      && (OfHook(events, name) != [] <==> exists i :: 0 <= i < |rows| && rows[i].name == name)
      && (forall i :: 0 <= i < |rows| && rows[i].name == name ==> rows[i] == RowOf(events, name))
  {
    var names := HookNames(events);
    var rows := RowsOf(events, names);
    NamesAreExact(events, name);
    RowsLength(events, names);
    forall i | 0 <= i < |names| ensures rows[i] == RowOf(events, names[i]) { RowsAt(events, names, i); }
    if name in names {
      var i :| 0 <= i < |names| && names[i] == name;
      assert rows[i].name == name;
    }
  }

  /** The invariant of every run, row by row: names distinct and exactly those seen, each
      row the counts of its hook in the whole stream, columns summing to the totals. */
  lemma TelemetryInvariant(batches: seq<seq<RollbackEvent>>, name: string)
    ensures var s, stream := AfterCalls(batches), Stream(batches);
      && (forall i, j :: 0 <= i < j < |s.rows| ==> s.rows[i].name != s.rows[j].name)
      && (OfHook(stream, name) != [] <==> exists i :: 0 <= i < |s.rows| && s.rows[i].name == name)
      && (forall i :: 0 <= i < |s.rows| && s.rows[i].name == name ==> s.rows[i] == RowOf(stream, name))
      && SumAbandoned(s.rows) == s.abandonedCount == CountAbandoned(stream)
      && SumRestored(s.rows) == s.restoredCount == CountRestored(stream)
      && s.abandonedWeightTotal == AbandonedWeight(stream)
  {
    CallsReportStream(batches);
    ReportIsBalanced(Stream(batches));
    RowsAreExact(Stream(batches), name);
  }

  // ---------------------------------------------------------------------------
  // The counters written out
  // ---------------------------------------------------------------------------

  /** The positions of the rollbacks of a stream that exceeded the budget, or that did not. */
  function Rollbacks(events: seq<RollbackEvent>, exceeded: bool): set<nat> {
    set i: nat | i < |events| && events[i].wasRollback && events[i].budgetExceeded == exceeded
  }

  lemma RollbacksSnoc(events: seq<RollbackEvent>, exceeded: bool)
    requires events != []
    ensures var n := |events| - 1;
      Rollbacks(events, exceeded)
      == Rollbacks(events[..n], exceeded) + if events[n].wasRollback && events[n].budgetExceeded == exceeded then {n} else {}
  {
  }

  /** The totals count the positions of exceeded and of other rollbacks. */
  lemma {:induction false} TotalsCountPositions(events: seq<RollbackEvent>)
    ensures CountAbandoned(events) == |Rollbacks(events, true)| && CountRestored(events) == |Rollbacks(events, false)|
  {
    if events != [] {
      TotalsCountPositions(events[..|events| - 1]);
      RollbacksSnoc(events, true);
      RollbacksSnoc(events, false);
    }
  }

  /** The total weight adds up, event by event. */
  lemma {:induction false} WeightAddsUp(a: seq<RollbackEvent>, b: seq<RollbackEvent>)
    ensures AbandonedWeight(a + b) == AbandonedWeight(a) + AbandonedWeight(b)
    decreases |b|
  {
    if b == [] {
      assert a + b == a;
    } else {
      var n := |b| - 1;
      WeightAddsUp(a, b[..n]);
      assert (a + b)[..|a| + n] == a + b[..n];
    }
  }

  lemma WeightOfOne(e: RollbackEvent)
    ensures AbandonedWeight([e]) == if e.wasRollback && e.budgetExceeded then e.frameWeight else 0
  {
    assert [e][..0] == [];
  }

  /** The summary after successive batches of superseded transitions; an empty batch changes nothing. */
  function SummaryAfter(batches: seq<seq<string>>): Value {
    if batches == [] then ConflictSummary(0, 0, None)
    else
      var n := |batches| - 1;
      if batches[n] == [] then SummaryAfter(batches[..n]) else Summarised(SummaryAfter(batches[..n]), batches[n])
  }

  function AllEntries(batches: seq<seq<string>>): seq<string> {
    if batches == [] then [] else AllEntries(batches[..|batches| - 1]) + batches[|batches| - 1]
  }

  /** Over every sequence of batches the summary's total counts every entry ever drained, its last
      plugin is that of the last entry, and its number of plugins is that of the last batch that
      was not empty. */
  lemma {:induction false} SummaryCountsAll(batches: seq<seq<string>>)
    ensures SummaryAfter(batches).ConflictSummary?
    ensures var summary, all := SummaryAfter(batches), AllEntries(batches);
      var newest := if batches == [] then [] else batches[|batches| - 1];
      && summary.total == |all|
      && summary.last == (if all == [] then None else Some(all[|all| - 1]))
      && (newest != [] ==> summary.unique == |set e | e in newest|)
  {
    if batches != [] { SummaryCountsAll(batches[..|batches| - 1]); }
  }
}
