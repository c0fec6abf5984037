/**
 The engine watchdog: saturating exponential backoff, and the recovery loop on a
 virtual clock whose delays the environment chooses.
 */
module Watchdog {
  import opened Numbers

  const U32_RANGE: nat := 0x1_0000_0000
  const BASE_MS: nat := 100

  function Min(a: nat, b: nat): nat { if a <= b then a else b }

  function Max(a: nat, b: nat): nat { if a >= b then a else b }

  function SaturatingMul(a: nat, b: nat): nat { Min(a * b, U64_MAX) }

  function Pow2(n: nat): (p: nat)
    ensures p >= 1
  {
    if n == 0 then 1 else 2 * Pow2(n - 1)
  }

  /** The settings, both `u64` milliseconds. */
  datatype Config = Config(heartbeatIntervalMs: nat, maxResponseDelayMs: nat) {
    ghost predicate Valid() { heartbeatIntervalMs <= U64_MAX && maxResponseDelayMs <= U64_MAX }

    function Cap(): nat { Max(maxResponseDelayMs, SaturatingMul(heartbeatIntervalMs, 8)) }

    /** `compute_backoff`: the shift is capped at 63 and the product saturates. */
    function Backoff(recoveries: nat): nat {
      var exponent := Min(SaturatingSub(recoveries, 1), 63);
      var factor := Pow2(exponent);
      Min(SaturatingMul(BASE_MS, factor), Cap())
    }
  }

  // ---------------------------------------------------------------------------
  // Exact backoff
  // ---------------------------------------------------------------------------

  lemma {:induction false} Pow2Monotone(a: nat, b: nat)
    requires a <= b
    ensures Pow2(a) <= Pow2(b)
    decreases b
  {
    if a < b { Pow2Monotone(a, b - 1); }
  }

  /** Powers around the overflow: the largest shift fits in 64 bits, 100 times 2^58 does not. */
  lemma Pow2Facts()
    ensures Pow2(63) == 0x8000_0000_0000_0000 && Pow2(58) == 0x400_0000_0000_0000
  {
    Pow2At48();
    Pow2Plus8(48);
    Pow2Plus8(50);
    Pow2Plus8(55);
    assert Pow2(50) == 4 * Pow2(48);
    assert Pow2(56) == 2 * Pow2(55);
  }

  lemma Pow2At48()
    ensures Pow2(48) == 0x1_0000_0000_0000
  {
    Pow2Plus8(0);
    Pow2Plus8(8);
    Pow2Plus8(16);
    Pow2Plus8(24);
    Pow2Plus8(32);
    Pow2Plus8(40);
  }

  lemma Pow2Plus8(n: nat)
    ensures Pow2(n + 8) == 256 * Pow2(n)
  {
    assert Pow2(n + 2) == 2 * Pow2(n + 1);
    assert Pow2(n + 4) == 2 * Pow2(n + 3);
    assert Pow2(n + 6) == 2 * Pow2(n + 5);
    assert Pow2(n + 8) == 2 * Pow2(n + 7);
  }

  lemma CapFitsU64(c: Config)
    requires c.Valid()
    ensures c.Cap() <= U64_MAX
  {
  }

  /** Neither the saturation nor the shift cap is visible: the backoff is exact for every count. */
  lemma BackoffIsExact(c: Config, n: nat)
    requires c.Valid() && n >= 1
    ensures c.Backoff(n) == Min(BASE_MS * Pow2(n - 1), c.Cap())
  {
    CapFitsU64(c);
    if n - 1 > 63 {
      Pow2Facts();
      Pow2Monotone(63, n - 1);
    }
  }

  /** The backoff in milliseconds, written out: 100 doubled for each recovery after the first, at
      most the larger of the response delay and eight heartbeats (which saturate at the `u64` range). */
  lemma BackoffSays(c: Config, n: nat)
    requires c.Valid() && n >= 1
    ensures var eight := if 8 * c.heartbeatIntervalMs <= 0xFFFF_FFFF_FFFF_FFFF then 8 * c.heartbeatIntervalMs else 0xFFFF_FFFF_FFFF_FFFF;
      var cap := if c.maxResponseDelayMs >= eight then c.maxResponseDelayMs else eight;
      var delay := 100 * Pow2(n - 1);
      c.Backoff(n) == if delay <= cap then delay else cap
    ensures Pow2(0) == 1 && Pow2(n) == 2 * Pow2(n - 1)
  {
    BackoffIsExact(c, n);
  }

  /** The backoff doubles up to the cap, so it never falls while recoveries go on. */
  lemma BackoffDoubles(c: Config, n: nat)
    requires c.Valid() && n >= 1
    ensures c.Backoff(n + 1) == Min(2 * c.Backoff(n), c.Cap())
  {
    BackoffIsExact(c, n);
    BackoffIsExact(c, n + 1);
    assert Pow2(n) == 2 * Pow2(n - 1);
  }

  lemma BackoffMonotone(c: Config, n: nat, m: nat)
    requires c.Valid() && 1 <= n <= m
    ensures Min(BASE_MS, c.Cap()) <= c.Backoff(n) <= c.Backoff(m) <= c.Cap()
  {
    BackoffIsExact(c, n);
    BackoffIsExact(c, m);
    Pow2Monotone(n - 1, m - 1);
  }

  /** From the 59th consecutive recovery on the backoff is the cap, whatever the settings. */
  lemma BackoffReachesCap(c: Config, n: nat)
    requires c.Valid() && n >= 59
    ensures c.Backoff(n) == c.Cap()
  {
    BackoffIsExact(c, n);
    CapFitsU64(c);
    Pow2Facts();
    Pow2Monotone(58, n - 1);
  }

  // ---------------------------------------------------------------------------
  // The recovery loop
  // ---------------------------------------------------------------------------

  /** One round of the loop, with the delays the environment adds: waiting for the tick,
      answering, noticing the timeout late, recovering, oversleeping. */
  datatype Beat =
    | Pong(tick: nat, answer: nat)
    | Missed(tick: nat, late: nat, recovery: nat, oversleep: nat)

  datatype Moment = Moment(clock: nat, recoveries: nat)

  /** When the round's ping goes out, and when its missing pong is noticed. */
  function PingAt(m: Moment, b: Beat): nat { m.clock + b.tick }

  function NoticedAt(c: Config, m: Moment, b: Beat): nat
    requires b.Missed?
  {
    PingAt(m, b) + c.maxResponseDelayMs + b.late
  }

  function Next(c: Config, m: Moment, b: Beat): Moment {
    match b
    case Pong(_, answer) => Moment(PingAt(m, b) + answer, 0)
    case Missed(_, _, recovery, oversleep) =>
      var recoveries := (m.recoveries + 1) % U32_RANGE;
      Moment(NoticedAt(c, m, b) + recovery + c.Backoff(recoveries) + oversleep, recoveries)
  }

  /** After the first `n` rounds. */
  function After(c: Config, beats: seq<Beat>, n: nat): Moment
    requires n <= |beats|
  {
    if n == 0 then Moment(0, 0) else Next(c, After(c, beats, n - 1), beats[n - 1])
  }

  /** A round takes the waiting it consists of: the tick and the answer, or the tick, the response
      timeout, the recovery and the backoff for the raised counter, with what the environment adds. */
  lemma RoundTakes(c: Config, m: Moment, b: Beat)
    ensures b.Pong? ==> Next(c, m, b) == Moment(m.clock + b.tick + b.answer, 0)
    ensures b.Missed? && m.recoveries + 1 < 0x1_0000_0000 ==>
      && Next(c, m, b).recoveries == m.recoveries + 1
      && Next(c, m, b).clock == m.clock + b.tick + c.maxResponseDelayMs + b.late + b.recovery + c.Backoff(m.recoveries + 1) + b.oversleep
  {
  }

  class EngineWatchdog {
    const config: Config

    constructor (config: Config)
      ensures this.config == config
    {
      this.config := config;
    }

    /** The loop of `run` until the environment's rounds are used up (a closed channel). */
    method Run(beats: seq<Beat>) returns (clock: nat, consecutiveRecoveries: nat)
      ensures Moment(clock, consecutiveRecoveries) == After(config, beats, |beats|)
    {
      clock, consecutiveRecoveries := 0, 0;
      for i := 0 to |beats|
        invariant Moment(clock, consecutiveRecoveries) == After(config, beats, i)
      {
        clock := clock + beats[i].tick;
        match beats[i] {
          case Pong(_, answer) =>
            consecutiveRecoveries := 0;
            clock := clock + answer;
          case Missed(_, late, recovery, oversleep) =>
            clock := clock + config.maxResponseDelayMs + late;
            consecutiveRecoveries := (consecutiveRecoveries + 1) % U32_RANGE;
            clock := clock + recovery;
            var backoff := config.Backoff(consecutiveRecoveries);
            clock := clock + backoff + oversleep;
        }
      }
    }
  }

  /** The first `n` backoffs together. */
  function Backoffs(c: Config, n: nat): nat {
    if n == 0 then 0 else Backoffs(c, n - 1) + c.Backoff(n)
  }

  /** Rounds `start` to `start + k` exclusive are all missed, and a fresh count begins with them. */
  ghost predicate Streak(beats: seq<Beat>, start: nat, k: nat) {
    && start + k <= |beats|
    && (start == 0 || beats[start - 1].Pong?)
    && forall i :: start <= i < start + k ==> beats[i].Missed?
  }

  lemma FreshCount(c: Config, beats: seq<Beat>, start: nat)
    requires Streak(beats, start, 0)
    ensures After(c, beats, start).recoveries == 0
  {
  }

  /** The least time `k` misses take, each with its timeout and its backoff. */
  function Lag(c: Config, k: nat): nat {
    if k == 0 then 0 else Lag(c, k - 1) + c.maxResponseDelayMs + c.Backoff(k)
  }

  lemma {:induction false} LagIs(c: Config, k: nat)
    ensures Lag(c, k) == Times(k, c.maxResponseDelayMs) + Backoffs(c, k)
  {
    if k > 0 { LagIs(c, k - 1); }
  }

  /** Since `from`, `k` misses have moved the clock by `k` timeouts and `k` backoffs. */
  ghost predicate Moved(c: Config, from: nat, m: Moment, k: nat) {
    m.recoveries == k && m.clock >= from + Lag(c, k)
  }

  lemma FirstMiss(c: Config, m: Moment, b: Beat)
    requires b.Missed? && m.recoveries == 0
    ensures Moved(c, PingAt(m, b), Next(c, m, b), 1)
  {
    assert Lag(c, 1) == Lag(c, 0) + c.maxResponseDelayMs + c.Backoff(1);
  }

  lemma AnotherMiss(c: Config, from: nat, m: Moment, b: Beat, k: nat)
    requires b.Missed? && Moved(c, from, m, k) && k + 1 < U32_RANGE
    ensures Moved(c, from, Next(c, m, b), k + 1)
  {
  }

  lemma StreakStarts(c: Config, beats: seq<Beat>, start: nat)
    requires Streak(beats, start, 1)
    ensures Moved(c, PingAt(After(c, beats, start), beats[start]), After(c, beats, start + 1), 1)
  {
    FreshCount(c, beats, start);
    FirstMiss(c, After(c, beats, start), beats[start]);
  }

  lemma StreakContinues(c: Config, beats: seq<Beat>, from: nat, n: nat, k: nat)
    requires n < |beats| && beats[n].Missed? && k + 1 < U32_RANGE
    requires Moved(c, from, After(c, beats, n), k)
    ensures Moved(c, from, After(c, beats, n + 1), k + 1)
  {
    AnotherMiss(c, from, After(c, beats, n), beats[n], k);
  }

  /** After `k` misses in a row the counter is `k`, and the clock has moved by `k` timeouts
      and `k` backoffs since the first of their pings. */
  lemma {:induction false} StreakMoves(c: Config, beats: seq<Beat>, start: nat, k: nat, from: nat)
    requires Streak(beats, start, k) && 0 < k < U32_RANGE
    requires from == PingAt(After(c, beats, start), beats[start])
    ensures Moved(c, from, After(c, beats, start + k), k)
    decreases k
  {
    if k == 1 {
      StreakStarts(c, beats, start);
    } else {
      var n := start + k - 1;
      StreakMoves(c, beats, start, k - 1, from);
      StreakContinues(c, beats, from, n, k - 1);
    }
  }

  lemma NoticedLate(c: Config, from: nat, m: Moment, b: Beat, k: nat)
    requires b.Missed? && Moved(c, from, m, k)
    ensures NoticedAt(c, m, b) >= from + Times(k + 1, c.maxResponseDelayMs) + Backoffs(c, k)
  {
    LagIs(c, k);
  }

  lemma NoticedAfterLag(c: Config, beats: seq<Beat>, start: nat, k: nat)
    requires Streak(beats, start, k) && 0 < k <= U32_RANGE
    ensures NoticedAt(c, After(c, beats, start + k - 1), beats[start + k - 1])
         >= PingAt(After(c, beats, start), beats[start]) + Times(k, c.maxResponseDelayMs) + Backoffs(c, k - 1)
  {
    var from := PingAt(After(c, beats, start), beats[start]);
    if k == 1 {
      assert Times(1, c.maxResponseDelayMs) == c.maxResponseDelayMs && Backoffs(c, 0) == 0;
    } else {
      StreakMoves(c, beats, start, k - 1, from);
      NoticedLate(c, from, After(c, beats, start + k - 1), beats[start + k - 1], k - 1);
    }
  }

  /** From the first ping of a streak until its `k`-th missing pong is noticed, at least `k`
      response timeouts and the first `k - 1` backoffs pass. */
  lemma MissesTakeTime(c: Config, beats: seq<Beat>, start: nat, k: nat)
    requires Streak(beats, start, k) && 0 < k <= U32_RANGE
    ensures NoticedAt(c, After(c, beats, start + k - 1), beats[start + k - 1])
         >= PingAt(After(c, beats, start), beats[start]) + k * c.maxResponseDelayMs + Backoffs(c, k - 1)
  {
    NoticedAfterLag(c, beats, start, k);
    TimesIsProduct(k, c.maxResponseDelayMs);
  }

  /** The backoffs add up to at least `n` times the smaller of 100 and the cap: recoveries
      never come in a tight loop. */
  lemma {:induction false} BackoffsAtLeast(c: Config, n: nat)
    requires c.Valid()
    ensures Backoffs(c, n) >= n * Min(BASE_MS, c.Cap())
  {
    if n > 0 {
      BackoffsAtLeast(c, n - 1);
      BackoffMonotone(c, n, n);
      OneMore(n - 1, Min(BASE_MS, c.Cap()));
    }
  }

  /** Below the cap the backoffs add up to 100 (2^n - 1) milliseconds. */
  lemma {:induction false} BackoffsBelowCap(c: Config, n: nat)
    requires c.Valid() && n >= 1 && BASE_MS * Pow2(n - 1) <= c.Cap()
    ensures Backoffs(c, n) == BASE_MS * Pow2(n) - BASE_MS
  {
    BackoffIsExact(c, n);
    if n > 1 {
      Pow2Monotone(n - 2, n - 1);
      BackoffsBelowCap(c, n - 1);
    } else {
      assert Backoffs(c, 0) == 0 && Pow2(1) == 2 && Pow2(0) == 1;
    }
  }
}
