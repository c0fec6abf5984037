/**
 The stream batch emitter: text fragments are accumulated per trace and handed
 out as whole batches under the rate limiter.
 */
module StreamBatch {
  import opened Options
  import opened Numbers
  import opened RateLimiter

  type Batch = map<string, string>

  /** `append`: extends a trace's text, or starts it. */
  function Append(batch: Batch, id: string, text: string): Batch {
    batch[id := (if id in batch then batch[id] else "") + text]
  }

  class StreamBatchEmitter {
    var batch: Batch
    const limiter: IpcRateLimiter

    constructor (limiter: IpcRateLimiter)
      ensures batch == map[] && this.limiter == limiter
    {
      batch := map[];
      this.limiter := limiter;
    }

    ghost function Model(): Emitter
      reads this, limiter
    {
      Emitter(batch, limiter.lastEmitMs)
    }

    method Accumulate(id: string, text: string)
      modifies this
      ensures Model() == StepEmitter(limiter.frameBudgetMs, old(Model()), Accumulated(id, text)).0
    {
      if id in batch {
        batch := batch[id := batch[id] + text];
      } else {
        batch := batch[id := text];
        assert text == "" + text;
      }
    }

    /** `encodes` says whether MessagePack serialization of this batch succeeds, `stamp`
        is the clock read made by the limiter; the payload is the serialized batch. */
    method ForceEmit(stamp: nat, encodes: bool) returns (payload: Option<Batch>)
      modifies this, limiter
      ensures (Model(), payload) == StepEmitter(limiter.frameBudgetMs, old(Model()), Forced(stamp, encodes))
      ensures payload != None <==> old(batch) != map[] && encodes
      ensures payload != None ==> payload == Some(old(batch)) && batch == map[]
    {
      if batch == map[] {
        return None;
      }
      if !encodes {
        return None;
      }
      payload := Some(batch);
      batch := map[];
      limiter.ForceEmit(stamp);
    }

    method TryEmit(now: nat, stamp: nat, encodes: bool) returns (payload: Option<Batch>)
      modifies this, limiter
      ensures (Model(), payload) == StepEmitter(limiter.frameBudgetMs, old(Model()), Tried(now, stamp, encodes))
      ensures payload != None <==> old(batch) != map[] && encodes && Due(limiter.frameBudgetMs, old(limiter.lastEmitMs), now)
      ensures payload != None ==> payload == Some(old(batch)) && batch == map[]
    {
      var allowed := limiter.TryEmit(now);
      if allowed {
        payload := ForceEmit(stamp, encodes);
      } else {
        payload := None;
      }
    }
  }

  // ---------------------------------------------------------------------------
  // Whole runs
  // ---------------------------------------------------------------------------

  datatype Emitter = Emitter(batch: Batch, last: nat)

  datatype Call =
    | Accumulated(id: string, text: string)
    | Tried(now: nat, stamp: nat, encodes: bool)
    | Forced(stamp: nat, encodes: bool)

  function Flush(e: Emitter, stamp: nat, encodes: bool): (Emitter, Option<Batch>) {
    if e.batch == map[] || !encodes then (e, None) else (Emitter(map[], stamp), Some(e.batch))
  }

  function StepEmitter(budget: nat, e: Emitter, c: Call): (Emitter, Option<Batch>) {
    match c
    case Accumulated(id, text) => (e.(batch := Append(e.batch, id, text)), None)
    case Tried(now, stamp, encodes) =>
      if Passes(budget, now, e.last) then Flush(e.(last := now), stamp, encodes) else (e, None)
    case Forced(stamp, encodes) => Flush(e, stamp, encodes)
  }

  /** A payload, the clock read that allowed it and the one the limiter stored. */
  datatype Emission = Emission(batch: Batch, tried: bool, decided: nat, stamp: nat)

  datatype Log = Log(emitter: Emitter, emissions: seq<Emission>)

  function StepLog(budget: nat, log: Log, c: Call): Log {
    var (e, payload) := StepEmitter(budget, log.emitter, c);
    Log(e,
      if payload.None? || c.Accumulated? then log.emissions
      else log.emissions + [Emission(payload.value, c.Tried?, if c.Tried? then c.now else c.stamp, c.stamp)])
  }

  function RunLog(budget: nat, calls: seq<Call>): Log {
    if calls == [] then Log(Emitter(map[], U64_MAX), [])
    else StepLog(budget, RunLog(budget, calls[..|calls| - 1]), calls[|calls| - 1])
  }

  function TextOf(batch: Batch, id: string): string {
    if id in batch then batch[id] else ""
  }

  function EmittedText(emissions: seq<Emission>, id: string): string {
    if emissions == [] then ""
    else EmittedText(emissions[..|emissions| - 1], id) + TextOf(emissions[|emissions| - 1].batch, id)
  }

  function AccumulatedText(calls: seq<Call>, id: string): string {
    if calls == [] then ""
    else
      var last := calls[|calls| - 1];
      AccumulatedText(calls[..|calls| - 1], id)
      + if last.Accumulated? && last.id == id then last.text else ""
  }

  lemma EmittedSnoc(emissions: seq<Emission>, x: Emission, id: string)
    ensures EmittedText(emissions + [x], id) == EmittedText(emissions, id) + TextOf(x.batch, id)
  {
    assert (emissions + [x])[..|emissions|] == emissions;
  }

  /** One call moves text from the accumulated to the pending to the emitted side, and loses none. */
  lemma StepConservesText(budget: nat, log: Log, c: Call, id: string)
    ensures var after := StepLog(budget, log, c);
      EmittedText(after.emissions, id) + TextOf(after.emitter.batch, id)
      == EmittedText(log.emissions, id) + TextOf(log.emitter.batch, id)
         + if c.Accumulated? && c.id == id then c.text else ""
  {
    var after := StepLog(budget, log, c);
    if c.Accumulated? {
      var emitted, pending := EmittedText(log.emissions, id), TextOf(log.emitter.batch, id);
      assert TextOf(after.emitter.batch, id) == if c.id == id then pending + c.text else pending;
      assert emitted + (pending + c.text) == emitted + pending + c.text;
    } else if after.emissions != log.emissions {
      EmittedSnoc(log.emissions, after.emissions[|log.emissions|], id);
    }
  }

  /** For every mix of calls and every trace: the emitted texts in order, followed by
      the pending text, are the concatenation of all accumulated fragments. */
  lemma {:induction false} TextIsConserved(budget: nat, calls: seq<Call>, id: string)
    ensures var log := RunLog(budget, calls);
      EmittedText(log.emissions, id) + TextOf(log.emitter.batch, id) == AccumulatedText(calls, id)
  {
    if calls != [] {
      var n := |calls| - 1;
      TextIsConserved(budget, calls[..n], id);
      StepConservesText(budget, RunLog(budget, calls[..n]), calls[n], id);
    }
  }

  /** The calls' clock reads never go back and never reach the sentinel. */
  predicate Monotone(calls: seq<Call>, from: nat)
    decreases |calls|
  {
    if calls == [] then true
    else
      match calls[|calls| - 1]
      case Accumulated(_, _) => Monotone(calls[..|calls| - 1], from)
      case Tried(now, stamp, _) =>
        Monotone(calls[..|calls| - 1], from) && LastRead(calls[..|calls| - 1], from) <= now <= stamp < U64_MAX
      case Forced(stamp, _) =>
        Monotone(calls[..|calls| - 1], from) && LastRead(calls[..|calls| - 1], from) <= stamp < U64_MAX
  }

  function LastRead(calls: seq<Call>, from: nat): nat {
    if calls == [] then from
    else
      match calls[|calls| - 1]
      case Accumulated(_, _) => LastRead(calls[..|calls| - 1], from)
      case Tried(_, stamp, _) => stamp
      case Forced(stamp, _) => stamp
  }

  /** Under a monotone clock, every payload that `try_emit` returns was allowed at
      least a frame budget after the stamp of every earlier payload. */
  lemma {:induction false} TriedPayloadsAreSpaced(budget: nat, calls: seq<Call>, from: nat)
    requires Monotone(calls, from)
    ensures var log := RunLog(budget, calls);
      && (log.emissions != [] ==> log.emitter.last != U64_MAX)
      && (log.emitter.last != U64_MAX ==> log.emitter.last <= LastRead(calls, from))
      && (forall i :: 0 <= i < |log.emissions| ==> log.emissions[i].stamp <= log.emitter.last)
      && (forall i, j :: 0 <= i < j < |log.emissions| && log.emissions[j].tried ==>
            log.emissions[j].decided >= log.emissions[i].stamp + budget)
  {
    if calls != [] {
      TriedPayloadsAreSpaced(budget, calls[..|calls| - 1], from);
    }
  }

  // ---------------------------------------------------------------------------
  // When a payload goes out
  // ---------------------------------------------------------------------------

  /** The limiter lets a tried call pass: nothing was stored yet, or a budget has passed since. */
  predicate Due(budget: nat, last: nat, now: nat) {
    last == 0xFFFF_FFFF_FFFF_FFFF || budget == 0 || now >= last + budget
  }

  /** The call asks for a payload, and the limiter does not hold it back. */
  predicate Asks(budget: nat, e: Emitter, c: Call) {
    c.Forced? || (c.Tried? && Due(budget, e.last, c.now))
  }

  /** A call returns a payload if and only if it asks for one, something is pending and the
      encoding succeeds.  The payload is then the whole batch, nothing stays pending and the
      stamp is stored; otherwise the batch stays, and a passing try stores its own time. */
  lemma PayloadIff(budget: nat, e: Emitter, c: Call)
    requires !c.Accumulated?
    ensures var (after, payload) := StepEmitter(budget, e, c);
      if Asks(budget, e, c) && e.batch != map[] && c.encodes
      then payload == Some(e.batch) && after.batch == map[] && after.last == c.stamp
      else && payload == None && after.batch == e.batch
           && after.last == if c.Tried? && Due(budget, e.last, c.now) then c.now else e.last
  {
  }

  lemma RunSnoc(budget: nat, calls: seq<Call>, c: Call)
    ensures RunLog(budget, calls + [c]) == StepLog(budget, RunLog(budget, calls), c)
    ensures !c.Accumulated? ==> forall id :: AccumulatedText(calls + [c], id) == AccumulatedText(calls, id)
  {
    assert (calls + [c])[..|calls|] == calls;
    if !c.Accumulated? {
      forall id ensures AccumulatedText(calls + [c], id) == AccumulatedText(calls, id) {
        assert AccumulatedText(calls, id) + "" == AccumulatedText(calls, id);
      }
    }
  }

  /** After every run, a forced call that encodes, and a tried one that encodes and is due, leave
      nothing pending: for every trace the emitted texts alone are all its fragments. */
  lemma AskingEmitsEverything(budget: nat, calls: seq<Call>, c: Call, id: string)
    requires !c.Accumulated? && c.encodes && Asks(budget, RunLog(budget, calls).emitter, c)
    ensures var log := RunLog(budget, calls + [c]);
      log.emitter.batch == map[] && EmittedText(log.emissions, id) == AccumulatedText(calls, id)
  {
    RunSnoc(budget, calls, c);
    PayloadIff(budget, RunLog(budget, calls).emitter, c);
    TextIsConserved(budget, calls + [c], id);
    var log := RunLog(budget, calls + [c]);
    assert EmittedText(log.emissions, id) + "" == EmittedText(log.emissions, id);
  }

  /** Something is pending for a trace exactly if it was accumulated since the last payload. */
  function SinceEmission(budget: nat, calls: seq<Call>, id: string): bool {
    if calls == [] then false
    else
      var n := |calls| - 1;
      match calls[n]
      case Accumulated(trace, _) => trace == id || SinceEmission(budget, calls[..n], id)
      case _ => SinceEmission(budget, calls[..n], id) && StepEmitter(budget, RunLog(budget, calls[..n]).emitter, calls[n]).1 == None
  }

  lemma {:induction false} PendingIff(budget: nat, calls: seq<Call>, id: string)
    ensures id in RunLog(budget, calls).emitter.batch <==> SinceEmission(budget, calls, id)
  {
    if calls != [] {
      var n := |calls| - 1;
      PendingIff(budget, calls[..n], id);
      if !calls[n].Accumulated? { PayloadIff(budget, RunLog(budget, calls[..n]).emitter, calls[n]); }
    }
  }

  /** A forced call that encodes stays silent only if nothing was accumulated since the last payload. */
  lemma ForcedSilentIff(budget: nat, calls: seq<Call>, stamp: nat)
    ensures StepEmitter(budget, RunLog(budget, calls).emitter, Forced(stamp, true)).1 == None
       <==> forall id :: !SinceEmission(budget, calls, id)
  {
    var e := RunLog(budget, calls).emitter;
    PayloadIff(budget, e, Forced(stamp, true));
    if e.batch != map[] {
      var id :| id in e.batch;
      PendingIff(budget, calls, id);
    } else {
      forall id ensures !SinceEmission(budget, calls, id) { PendingIff(budget, calls, id); }
    }
  }
}
