/**
 The telemetry books on their own: the rollback event log and the counters, as
 hooks append events and `after_prediction` moves events from one to the other,
 each move being undone on either side, both or neither.
 */
module TelemetryLedger {
  import opened ExtensionModel
  import opened Telemetry

  datatype Book = Book(log: seq<RollbackEvent>, stats: Stats)

  /** What a hook did to the books before its own event was logged: nothing, or a drain
      after which the log, the counters, both or neither were put back. */
  datatype Fate = Untouched | Drained(logBack: bool, statsBack: bool)

  datatype Entry = Entry(fate: Fate, event: RollbackEvent)

  function StepBook(b: Book, e: Entry): Book {
    match e.fate
    case Untouched => Book(b.log + [e.event], b.stats)
    case Drained(logBack, statsBack) =>
      Book((if logBack then b.log else []) + [e.event], if statsBack then b.stats else AbsorbAll(b.stats, b.log))
  }

  function RunBook(b: Book, entries: seq<Entry>): Book {
    if entries == [] then b else StepBook(RunBook(b, entries[..|entries| - 1]), entries[|entries| - 1])
  }

  /** Successive books, each following from the last by its entry. */
  ghost predicate IsBookRun(books: seq<Book>, entries: seq<Entry>) {
    && |books| == |entries| + 1
    && forall i :: 0 <= i < |entries| ==> books[i + 1] == StepBook(books[i], entries[i])
  }

  lemma {:induction false} BooksAreRun(books: seq<Book>, entries: seq<Entry>, n: nat)
    requires IsBookRun(books, entries) && n <= |entries|
    ensures books[n] == RunBook(books[0], entries[..n])
  {
    if n > 0 {
      BooksAreRun(books, entries, n - 1);
      assert entries[..n][..n - 1] == entries[..n - 1];
      assert books[n - 1 + 1] == StepBook(books[n - 1], entries[n - 1]);
    }
  }

  function EventsOf(entries: seq<Entry>): seq<RollbackEvent> {
    if entries == [] then [] else EventsOf(entries[..|entries| - 1]) + [entries[|entries| - 1].event]
  }

  // ---------------------------------------------------------------------------
  // No restoration is ever counted
  // ---------------------------------------------------------------------------

  /** Events as the driver produces them: a rollback if and only if the budget was exceeded. */
  ghost predicate AllDriven(events: seq<RollbackEvent>) {
    forall i :: 0 <= i < |events| ==> (events[i].wasRollback <==> events[i].budgetExceeded)
  }

  ghost predicate NoRestoration(s: Stats) {
    s.restoredCount == 0 && forall i :: 0 <= i < |s.rows| ==> s.rows[i].restored == 0
  }

  lemma AbsorbDriven(s: Stats, e: RollbackEvent)
    requires NoRestoration(s) && (e.wasRollback <==> e.budgetExceeded)
    ensures NoRestoration(Absorb(s, e))
  {
  }

  lemma {:induction false} AbsorbAllDriven(s: Stats, events: seq<RollbackEvent>)
    requires NoRestoration(s) && AllDriven(events)
    ensures NoRestoration(AbsorbAll(s, events))
  {
    if events != [] {
      AbsorbAllDriven(s, events[..|events| - 1]);
      AbsorbDriven(AbsorbAll(s, events[..|events| - 1]), events[|events| - 1]);
    }
  }

  ghost predicate Restorationless(b: Book) {
    AllDriven(b.log) && NoRestoration(b.stats)
  }

  lemma StepStaysRestorationless(b: Book, e: Entry)
    requires Restorationless(b) && (e.event.wasRollback <==> e.event.budgetExceeded)
    ensures Restorationless(StepBook(b, e))
  {
    AbsorbAllDriven(b.stats, b.log);
  }

  ghost predicate DrivenEntries(entries: seq<Entry>) {
    forall i :: 0 <= i < |entries| ==> (entries[i].event.wasRollback <==> entries[i].event.budgetExceeded)
  }

  lemma {:induction false} BookStaysRestorationless(b: Book, entries: seq<Entry>)
    requires Restorationless(b) && DrivenEntries(entries)
    ensures Restorationless(RunBook(b, entries))
  {
    if entries != [] {
      var n := |entries| - 1;
      BookStaysRestorationless(b, entries[..n]);
      StepStaysRestorationless(RunBook(b, entries[..n]), entries[n]);
    }
  }

  // ---------------------------------------------------------------------------
  // Which events are counted: by number, so that equal events stay apart
  // ---------------------------------------------------------------------------

  /** The numbers of the counted events, of those in the log, and the next number. */
  datatype Track = Track(counted: seq<nat>, pending: seq<nat>, next: nat)

  function StepTrack(t: Track, f: Fate): Track {
    match f
    case Untouched => Track(t.counted, t.pending + [t.next], t.next + 1)
    case Drained(logBack, statsBack) =>
      Track(if statsBack then t.counted else t.counted + t.pending,
            (if logBack then t.pending else []) + [t.next], t.next + 1)
  }

  function RunTrack(t: Track, entries: seq<Entry>): Track {
    if entries == [] then t else StepTrack(RunTrack(t, entries[..|entries| - 1]), entries[|entries| - 1].fate)
  }

  function Upto(n: nat): (r: seq<nat>)
    ensures |r| == n && forall i :: 0 <= i < n ==> r[i] == i
  {
    if n == 0 then [] else Upto(n - 1) + [n - 1]
  }

  /** The tracked numbers at the start: everything in the log is pending. */
  function Start(pending: nat): Track {
    Track([], Upto(pending), pending)
  }

  /** Each event so far is counted or pending, once and in order. */
  ghost predicate Exact(t: Track) {
    t.counted + t.pending == Upto(t.next)
  }

  ghost predicate Ordered(t: Track) {
    && (forall i :: 0 <= i < |t.counted| ==> t.counted[i] < t.next)
    && (forall i :: 0 <= i < |t.pending| ==> t.pending[i] < t.next)
    && (t.pending != [] ==>
          && t.pending[|t.pending| - 1] == t.next - 1
          && forall i :: 0 <= i < |t.counted| ==> t.counted[i] < t.next - 1)
  }

  /** A drain of which only one side was put back, of a log that was not empty. */
  predicate Splits(f: Fate, pending: nat) {
    f.Drained? && f.logBack != f.statsBack && pending > 0
  }

  lemma SnocEqual(a: seq<nat>, b: seq<nat>, x: nat)
    ensures a + [x] == b + [x] <==> a == b
  {
    if a + [x] == b + [x] { assert a == (a + [x])[..|a|] && b == (b + [x])[..|b|]; }
  }

  lemma StepStaysOrdered(t: Track, f: Fate)
    requires Ordered(t)
    ensures Ordered(StepTrack(t, f))
  {
  }

  /** The pending events counted and left in the log: the newest of them is there twice. */
  lemma RepeatIsNotExact(t: Track)
    requires Ordered(t) && t.pending != []
    ensures !Exact(StepTrack(t, Drained(true, false)))
  {
    var all := (t.counted + t.pending) + (t.pending + [t.next]);
    var first, second := |t.counted| + |t.pending| - 1, |t.counted| + |t.pending| + |t.pending| - 1;
    assert all[first] == t.next - 1 && all[second] == t.next - 1;
  }

  /** The pending events taken off the log and not counted: the newest of them is nowhere. */
  lemma LossIsNotExact(t: Track)
    requires Ordered(t) && t.pending != []
    ensures !Exact(StepTrack(t, Drained(false, true)))
  {
    assert [] + [t.next] == [t.next];
    SnocEqual(t.counted, Upto(t.next), t.next);
    assert |t.counted| == t.next ==> t.counted[t.next - 1] < t.next - 1;
  }

  lemma RegularStep(t: Track, f: Fate)
    requires !Splits(f, |t.pending|)
    ensures Exact(StepTrack(t, f)) <==> Exact(t)
  {
    var t' := StepTrack(t, f);
    assert t'.counted + t'.pending == (t.counted + t.pending) + [t.next];
    SnocEqual(t.counted + t.pending, Upto(t.next), t.next);
  }

  /** Exactness, once lost, does not come back, and only a split loses it. */
  lemma StepExactIff(t: Track, f: Fate)
    requires Ordered(t)
    ensures Exact(StepTrack(t, f)) <==> Exact(t) && !Splits(f, |t.pending|)
  {
    if !Splits(f, |t.pending|) {
      RegularStep(t, f);
    } else if f.logBack {
      RepeatIsNotExact(t);
    } else {
      LossIsNotExact(t);
    }
  }

  /** No drain of the run splits. */
  ghost predicate NeverSplits(t: Track, entries: seq<Entry>) {
    forall i :: 0 <= i < |entries| ==> !Splits(entries[i].fate, |RunTrack(t, entries[..i]).pending|)
  }

  lemma NeverSplitsSnoc(t: Track, entries: seq<Entry>)
    requires entries != []
    ensures var n := |entries| - 1;
      NeverSplits(t, entries) <==> NeverSplits(t, entries[..n]) && !Splits(entries[n].fate, |RunTrack(t, entries[..n]).pending|)
  {
    var n := |entries| - 1;
    forall i | 0 <= i < n ensures entries[..n][..i] == entries[..i] { }
    if NeverSplits(t, entries) {
      forall i | 0 <= i < n ensures !Splits(entries[..n][i].fate, |RunTrack(t, entries[..n][..i]).pending|) {
        assert !Splits(entries[i].fate, |RunTrack(t, entries[..i]).pending|);
      }
    }
    if NeverSplits(t, entries[..n]) && !Splits(entries[n].fate, |RunTrack(t, entries[..n]).pending|) {
      forall i | 0 <= i < |entries| ensures !Splits(entries[i].fate, |RunTrack(t, entries[..i]).pending|) {
        if i < n { assert !Splits(entries[..n][i].fate, |RunTrack(t, entries[..n][..i]).pending|); }
      }
    }
  }

  /** Over every run: each event ever logged is counted once or still in the log, in order,
      if and only if no drain split. */
  lemma {:induction false} ExactIffNeverSplits(start: nat, entries: seq<Entry>)
    ensures Ordered(RunTrack(Start(start), entries))
    ensures Exact(RunTrack(Start(start), entries)) <==> NeverSplits(Start(start), entries)
  {
    if entries == [] {
      assert [] + Upto(start) == Upto(start);
    } else {
      var n := |entries| - 1;
      var before := RunTrack(Start(start), entries[..n]);
      ExactIffNeverSplits(start, entries[..n]);
      NeverSplitsSnoc(Start(start), entries);
      StepStaysOrdered(before, entries[n].fate);
      StepExactIff(before, entries[n].fate);
    }
  }

  // ---------------------------------------------------------------------------
  // The numbers are those of the books
  // ---------------------------------------------------------------------------

  ghost predicate InRange(numbers: seq<nat>, n: nat) {
    forall i :: 0 <= i < |numbers| ==> numbers[i] < n
  }

  ghost function Pick(all: seq<RollbackEvent>, numbers: seq<nat>): (r: seq<RollbackEvent>)
    requires InRange(numbers, |all|)
    ensures |r| == |numbers| && forall i :: 0 <= i < |numbers| ==> r[i] == all[numbers[i]]
  {
    if numbers == [] then [] else Pick(all, numbers[..|numbers| - 1]) + [all[numbers[|numbers| - 1]]]
  }

  lemma PickAppend(all: seq<RollbackEvent>, a: seq<nat>, b: seq<nat>)
    requires InRange(a, |all|) && InRange(b, |all|)
    ensures InRange(a + b, |all|) && Pick(all, a + b) == Pick(all, a) + Pick(all, b)
  {
  }

  /** More events do not change what earlier numbers pick. */
  lemma PickLonger(all: seq<RollbackEvent>, e: RollbackEvent, numbers: seq<nat>)
    requires InRange(numbers, |all|)
    ensures InRange(numbers, |all + [e]|) && Pick(all + [e], numbers) == Pick(all, numbers)
  {
  }

  lemma {:induction false} AbsorbAppend(s: Stats, a: seq<RollbackEvent>, b: seq<RollbackEvent>)
    ensures AbsorbAll(s, a + b) == AbsorbAll(AbsorbAll(s, a), b)
  {
    if b == [] {
      assert a + b == a;
    } else {
      AbsorbAppend(s, a, b[..|b| - 1]);
      assert (a + b)[..|a| + |b| - 1] == a + b[..|b| - 1];
    }
  }

  /** The log holds the events with these numbers. */
  ghost predicate LogIs(all: seq<RollbackEvent>, pending: seq<nat>, log: seq<RollbackEvent>) {
    InRange(pending, |all|) && log == Pick(all, pending)
  }

  /** The counters have absorbed the events with these numbers. */
  ghost predicate StatsAre(start: Stats, all: seq<RollbackEvent>, counted: seq<nat>, stats: Stats) {
    InRange(counted, |all|) && stats == AbsorbAll(start, Pick(all, counted))
  }

  /** The books are what the tracked numbers say. */
  ghost predicate Matches(start: Stats, all: seq<RollbackEvent>, t: Track, b: Book) {
    |all| == t.next && LogIs(all, t.pending, b.log) && StatsAre(start, all, t.counted, b.stats)
  }

  lemma LogNext(all: seq<RollbackEvent>, pending: seq<nat>, log: seq<RollbackEvent>, e: RollbackEvent)
    requires LogIs(all, pending, log)
    ensures LogIs(all + [e], pending + [|all|], log + [e])
  {
  }

  lemma StatsNext(start: Stats, all: seq<RollbackEvent>, counted: seq<nat>, stats: Stats, e: RollbackEvent)
    requires StatsAre(start, all, counted, stats)
    ensures StatsAre(start, all + [e], counted, stats)
  {
    PickLonger(all, e, counted);
  }

  lemma StatsCount(start: Stats, all: seq<RollbackEvent>, t: Track, b: Book)
    requires Matches(start, all, t, b)
    ensures StatsAre(start, all, t.counted + t.pending, AbsorbAll(b.stats, b.log))
  {
    PickAppend(all, t.counted, t.pending);
    AbsorbAppend(start, Pick(all, t.counted), Pick(all, t.pending));
  }

  lemma StepStats(start: Stats, all: seq<RollbackEvent>, t: Track, b: Book, e: Entry)
    requires Matches(start, all, t, b)
    ensures StatsAre(start, all + [e.event], StepTrack(t, e.fate).counted, StepBook(b, e).stats)
  {
    if e.fate.Untouched? || e.fate.statsBack {
      StatsNext(start, all, t.counted, b.stats, e.event);
    } else {
      StatsCount(start, all, t, b);
      StatsNext(start, all, t.counted + t.pending, AbsorbAll(b.stats, b.log), e.event);
    }
  }

  lemma StepMatches(start: Stats, all: seq<RollbackEvent>, t: Track, b: Book, e: Entry)
    requires Matches(start, all, t, b)
    ensures Matches(start, all + [e.event], StepTrack(t, e.fate), StepBook(b, e))
  {
    StepStats(start, all, t, b, e);
    if e.fate.Untouched? || e.fate.logBack {
      LogNext(all, t.pending, b.log, e.event);
    } else {
      LogNext(all, [], [], e.event);
    }
  }

  lemma PickAll(all: seq<RollbackEvent>)
    ensures InRange(Upto(|all|), |all|) && Pick(all, Upto(|all|)) == all
  {
  }

  lemma {:induction false} RunMatches(b: Book, entries: seq<Entry>)
    ensures Matches(b.stats, b.log + EventsOf(entries), RunTrack(Start(|b.log|), entries), RunBook(b, entries))
  {
    if entries == [] {
      assert b.log + [] == b.log;
      PickAll(b.log);
    } else {
      var n := |entries| - 1;
      RunMatches(b, entries[..n]);
      StepMatches(b.stats, b.log + EventsOf(entries[..n]), RunTrack(Start(|b.log|), entries[..n]),
                  RunBook(b, entries[..n]), entries[n]);
      assert (b.log + EventsOf(entries[..n])) + [entries[n].event] == b.log + EventsOf(entries);
    }
  }

  /** Without a split, counters and log together report every event: the counters would read
      the same had they absorbed the whole stream and the log were empty. */
  lemma UnsplitBooksReportAll(b: Book, entries: seq<Entry>)
    requires NeverSplits(Start(|b.log|), entries)
    ensures var now := RunBook(b, entries);
      AbsorbAll(now.stats, now.log) == AbsorbAll(b.stats, b.log + EventsOf(entries))
  {
    var all, t := b.log + EventsOf(entries), RunTrack(Start(|b.log|), entries);
    RunMatches(b, entries);
    ExactIffNeverSplits(|b.log|, entries);
    StatsCount(b.stats, all, t, RunBook(b, entries));
    PickAll(all);
  }
}
