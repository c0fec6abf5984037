/**
 The per-frame effect scheduler: a first-in first-out queue with a greedy cost
 budget, ageing, a drop rule for old cosmetic effects and a stable re-sort of
 each frame by priority tier.
 */
module UiComposer {
  import opened Options

  datatype Widget =
    | TextChunk(traceId: string, text: string)
    | Error(code: string, message: string)
    | CriticalError(component: string, detail: Option<string>)
    | SystemDegraded(plugin: string)
    | NetworkError(reason: string)
    | Status(text: string)
    | SubRoutineTimeout(handle: string, limitMs: nat)
    | SubRoutineLoaded(handle: string)
    | PendingTask(taskId: string, status: string)
    | Test(msg: string)
    | Custom(widgetType: string, payload: seq<bv8>)

  /** Kernel effects; every variant other than `ForwardToUi` is told apart by a number only. */
  datatype Effect = ForwardToUi(widget: Widget) | NonUi(variant: nat)

  datatype Tier = Text | Navigation | Semantic | Cosmetic

  datatype Scheduled = Scheduled(effect: Effect, tier: Tier, age: nat)

  datatype Costs = Costs(text: nat, navigation: nat, semantic: nat, cosmetic: nat)

  const U8_MAX := 255
  const MAX_AGE := 3

  /** The costs set by `with_budget`. */
  const STANDARD_COSTS := Costs(0, 1, 2, 3)

  function Classify(w: Widget): Tier {
    match w
    case TextChunk(_, _) => Text
    case Custom(t, _) =>
      if t in {"focus", "scroll"} then Navigation
      else if t in {"accordion_expand", "highlight", "subroutine_loaded", "system_degraded",
                    "network_error", "status", "error", "subroutine_timeout"} then Semantic
      else Cosmetic
    case Test(_) => Cosmetic
    case _ => Semantic
  }

  /** The sort key of an effect: its tier's rank, or 255 for an effect that is not for the UI. */
  function Key(e: Effect): nat {
    if e.ForwardToUi? then Rank(Classify(e.widget)) else U8_MAX
  }

  function Rank(t: Tier): nat {
    match t
    case Text => 0
    case Navigation => 1
    case Semantic => 2
    case Cosmetic => 3
  }

  function CostOf(costs: Costs, t: Tier): nat {
    match t
    case Text => costs.text
    case Navigation => costs.navigation
    case Semantic => costs.semantic
    case Cosmetic => costs.cosmetic
  }

  /** The subsequence of effects with a given key. */
  function Of(effects: seq<Effect>, key: nat): seq<Effect> {
    if effects == [] then []
    else if Key(effects[0]) == key then [effects[0]] + Of(effects[1..], key)
    else Of(effects[1..], key)
  }

  function Effects(queue: seq<Scheduled>): seq<Effect> {
    if queue == [] then [] else [queue[0].effect] + Effects(queue[1..])
  }

  // ---------------------------------------------------------------------------
  // One frame
  // ---------------------------------------------------------------------------

  predicate Expired(s: Scheduled) {
    s.tier.Cosmetic? && s.age > MAX_AGE
  }

  predicate Fits(costs: Costs, budget: nat, cost: nat, s: Scheduled) {
    s.tier.Text? || cost + CostOf(costs, s.tier) <= budget
  }

  function Aged(s: Scheduled): Scheduled {
    s.(age := if s.age < U8_MAX then s.age + 1 else U8_MAX)
  }

  /** The cost spent once an entry has been looked at. */
  function Spend(costs: Costs, budget: nat, cost: nat, s: Scheduled): nat {
    if !Expired(s) && Fits(costs, budget, cost, s) then cost + CostOf(costs, s.tier) else cost
  }

  datatype Pass = Pass(chosen: seq<Effect>, retained: seq<Scheduled>, dropped: seq<Scheduled>)

  /** What one frame does with a queue when `cost` has already been spent. */
  function Partition(costs: Costs, budget: nat, cost: nat, queue: seq<Scheduled>): Pass
    decreases |queue|
  {
    if queue == [] then Pass([], [], [])
    else
      var s, rest := queue[0], queue[1..];
      if Expired(s) then
        var p := Partition(costs, budget, cost, rest);
        p.(dropped := [s] + p.dropped)
      else if Fits(costs, budget, cost, s) then
        var p := Partition(costs, budget, cost + CostOf(costs, s.tier), rest);
        p.(chosen := [s.effect] + p.chosen)
      else
        var p := Partition(costs, budget, cost, rest);
        p.(retained := [Aged(s)] + p.retained)
  }

  /** Rust's stable `sort_by_key` on the tier key; `StableSortIsUnique` shows it is the only one. */
  function SortByTier(effects: seq<Effect>): seq<Effect> {
    Gather(effects, KEYS)
  }

  /** The effects with the first key, then those with the second, and so on. */
  function Gather(effects: seq<Effect>, keys: seq<nat>): seq<Effect> {
    if keys == [] then [] else Of(effects, keys[0]) + Gather(effects, keys[1..])
  }

  const KEYS: seq<nat> := [0, 1, 2, 3, U8_MAX]

  ghost predicate Increasing(keys: seq<nat>) {
    forall i, j :: 0 <= i < j < |keys| ==> keys[i] < keys[j]
  }

  ghost predicate TierSorted(effects: seq<Effect>) {
    forall i, j :: 0 <= i < j < |effects| ==> Key(effects[i]) <= Key(effects[j])
  }

  function TotalCost(costs: Costs, effects: seq<Effect>): nat {
    if effects == [] then 0
    else
      (if effects[0].ForwardToUi? then CostOf(costs, Classify(effects[0].widget)) else 0)
      + TotalCost(costs, effects[1..])
  }

  // ---------------------------------------------------------------------------
  // The composer object
  // ---------------------------------------------------------------------------

  /** Queue entries carry their own classification; ages never increase towards the back. */
  ghost predicate WellQueued(queue: seq<Scheduled>) {
    && (forall s :: s in queue ==>
          s.effect.ForwardToUi? && s.tier == Classify(s.effect.widget) && s.age <= U8_MAX)
    && forall i, j :: 0 <= i < j < |queue| ==> queue[i].age >= queue[j].age
  }

  class Composer {
    var frameBudgetMs: nat
    var pending: seq<Scheduled>
    const costs: Costs

    ghost predicate Valid()
      reads this
    {
      frameBudgetMs <= U8_MAX && costs.text == 0 && WellQueued(pending)
    }

    constructor WithBudget(frameBudgetMs: nat)
      requires frameBudgetMs <= U8_MAX
      ensures Valid() && pending == [] && this.frameBudgetMs == frameBudgetMs && costs == STANDARD_COSTS
    {
      this.frameBudgetMs := frameBudgetMs;
      pending := [];
      costs := STANDARD_COSTS;
    }

    method SetFrameBudget(ms: nat)
      requires Valid() && ms <= U8_MAX
      modifies this`frameBudgetMs
      ensures Valid() && frameBudgetMs == ms
    {
      frameBudgetMs := ms;
    }

    method Enqueue(effect: Effect)
      requires Valid()
      modifies this`pending
      ensures Valid()
      ensures pending == Enqueued(old(pending), effect)
    {
      if effect.ForwardToUi? {
        pending := pending + [Scheduled(effect, Classify(effect.widget), 0)];
      }
    }

    method ComposeFrame() returns (frame: seq<Effect>)
      requires Valid()
      modifies this`pending
      ensures Valid()
      ensures pending == Partition(costs, frameBudgetMs, 0, old(pending)).retained
      ensures frame == SortByTier(Partition(costs, frameBudgetMs, 0, old(pending)).chosen)
      ensures TierSorted(frame) && TotalCost(costs, frame) <= frameBudgetMs
    {
      FrameIsGood(costs, frameBudgetMs, pending);
      var chosen, retained := SplitPending();
      pending := retained;
      frame := SortByTier(chosen);
    }

    /** The draining loop of `compose_frame`. */
    method SplitPending() returns (chosen: seq<Effect>, retained: seq<Scheduled>)
      ensures chosen == Partition(costs, frameBudgetMs, 0, pending).chosen
      ensures retained == Partition(costs, frameBudgetMs, 0, pending).retained
    {
      var budget := frameBudgetMs;
      var cost := 0;
      chosen, retained := [], [];
      var queue := pending;
      ghost var all := Partition(costs, budget, 0, pending);
      ghost var rest := all;
      while queue != []
        invariant rest == Partition(costs, budget, cost, queue)
        invariant all.chosen == chosen + rest.chosen && all.retained == retained + rest.retained
        decreases |queue|
      {
        var scheduled := queue[0];
        queue := queue[1..];
        var tierCost := CostOf(costs, scheduled.tier);
        rest := Partition(costs, budget, Spend(costs, budget, cost, scheduled), queue);
        if scheduled.tier == Cosmetic && scheduled.age > 3 {
          continue;
        }
        if scheduled.tier == Text || cost + tierCost <= budget {
          cost := cost + tierCost;
          ConcatAssoc(chosen, [scheduled.effect], rest.chosen);
          chosen := chosen + [scheduled.effect];
        } else {
          assert retained + ([Aged(scheduled)] + rest.retained) == (retained + [Aged(scheduled)]) + rest.retained;
          retained := retained + [scheduled.(age := if scheduled.age < 255 then scheduled.age + 1 else 255)];
        }
      }
    }
  }

  function Enqueued(queue: seq<Scheduled>, effect: Effect): seq<Scheduled> {
    if effect.ForwardToUi? then queue + [Scheduled(effect, Classify(effect.widget), 0)] else queue
  }

  function NonUiEffects(effects: seq<Effect>): seq<Effect> {
    if effects == [] then []
    else if effects[0].ForwardToUi? then NonUiEffects(effects[1..])
    else [effects[0]] + NonUiEffects(effects[1..])
  }

  function EnqueuedAll(queue: seq<Scheduled>, effects: seq<Effect>): seq<Scheduled>
    decreases |effects|
  {
    if effects == [] then queue else EnqueuedAll(Enqueued(queue, effects[0]), effects[1..])
  }

  /** The loop that hands the UI effects of a batch to the composer and collects the others. */
  method QueueUiEffects(composer: Composer, effects: seq<Effect>) returns (nonUi: seq<Effect>)
    requires composer.Valid()
    modifies composer`pending
    ensures composer.Valid()
    ensures composer.pending == EnqueuedAll(old(composer.pending), effects)
    ensures nonUi == NonUiEffects(effects)
  {
    nonUi := [];
    for i := 0 to |effects|
      invariant composer.Valid()
      invariant NonUiEffects(effects) == nonUi + NonUiEffects(effects[i..])
      invariant EnqueuedAll(composer.pending, effects[i..]) == EnqueuedAll(old(composer.pending), effects)
    {
      assert effects[i..][1..] == effects[i + 1..];
      if effects[i].ForwardToUi? {
        composer.Enqueue(effects[i]);
      } else {
        nonUi := nonUi + [effects[i]];
      }
    }
  }

  /** `UiPerformancePolicy::process_effects`: queues the UI effects of a batch and
      returns the others followed by the next frame. */
  method ProcessEffects(composer: Composer, effects: seq<Effect>) returns (frame: seq<Effect>)
    requires composer.Valid()
    modifies composer`pending
    ensures composer.Valid()
    ensures var p := Partition(composer.costs, composer.frameBudgetMs, 0, EnqueuedAll(old(composer.pending), effects));
      composer.pending == p.retained && frame == NonUiEffects(effects) + SortByTier(p.chosen)
  {
    var nonUi := QueueUiEffects(composer, effects);
    var ui := composer.ComposeFrame();
    frame := nonUi + ui;
  }

  // ---------------------------------------------------------------------------
  // Facts about one frame
  // ---------------------------------------------------------------------------

  lemma OfCons(e: Effect, effects: seq<Effect>, key: nat)
    ensures Of([e] + effects, key) == if Key(e) == key then [e] + Of(effects, key) else Of(effects, key)
  {
    assert ([e] + effects)[1..] == effects;
  }

  lemma {:induction false} OfAppend(a: seq<Effect>, b: seq<Effect>, key: nat)
    ensures Of(a + b, key) == Of(a, key) + Of(b, key)
  {
    if a == [] {
      assert a + b == b;
    } else {
      OfAppend(a[1..], b, key);
      assert a + b == [a[0]] + (a[1..] + b);
      OfCons(a[0], a[1..] + b, key);
      ConcatAssoc([a[0]], Of(a[1..], key), Of(b, key));
    }
  }

  lemma {:induction false} OfMembers(effects: seq<Effect>, key: nat)
    ensures forall e :: e in Of(effects, key) <==> e in effects && Key(e) == key
  {
    if effects != [] {
      OfMembers(effects[1..], key);
      assert effects == [effects[0]] + effects[1..];
    }
  }

  lemma {:induction false} OfOf(effects: seq<Effect>, inner: nat, key: nat)
    ensures Of(Of(effects, inner), key) == if inner == key then Of(effects, key) else []
  {
    if effects != [] {
      OfOf(effects[1..], inner, key);
      if Key(effects[0]) == inner { OfCons(effects[0], Of(effects[1..], inner), key); }
    }
  }

  lemma SortedAppend(a: seq<Effect>, b: seq<Effect>, key: nat)
    requires TierSorted(a) && TierSorted(b)
    requires forall e :: e in a ==> Key(e) <= key
    requires forall e :: e in b ==> Key(e) >= key
    ensures TierSorted(a + b)
  {
  }

  lemma OfIsSorted(effects: seq<Effect>, key: nat)
    ensures TierSorted(Of(effects, key)) && forall e :: e in Of(effects, key) ==> Key(e) == key
  {
    OfMembers(effects, key);
    forall i | 0 <= i < |Of(effects, key)| ensures Key(Of(effects, key)[i]) == key {
      assert Of(effects, key)[i] in Of(effects, key);
    }
  }

  lemma {:induction false} GatherIsSorted(effects: seq<Effect>, keys: seq<nat>)
    requires Increasing(keys)
    ensures TierSorted(Gather(effects, keys))
    ensures forall e :: e in Gather(effects, keys) ==> Key(e) in keys
  {
    if keys != [] {
      GatherIsSorted(effects, keys[1..]);
      OfIsSorted(effects, keys[0]);
      SortedAppend(Of(effects, keys[0]), Gather(effects, keys[1..]), keys[0]);
    }
  }

  lemma {:induction false} GatherKeepsTier(effects: seq<Effect>, keys: seq<nat>, key: nat)
    requires Increasing(keys)
    ensures Of(Gather(effects, keys), key) == if key in keys then Of(effects, key) else []
  {
    if keys != [] {
      GatherKeepsTier(effects, keys[1..], key);
      OfAppend(Of(effects, keys[0]), Gather(effects, keys[1..]), key);
      OfOf(effects, keys[0], key);
    }
  }

  /** The sorted frame is ordered by tier. */
  lemma SortIsSorted(effects: seq<Effect>)
    ensures TierSorted(SortByTier(effects))
  {
    GatherIsSorted(effects, KEYS);
  }

  /** The sorted frame keeps each tier's content and order. */
  lemma SortIsStable(effects: seq<Effect>, key: nat)
    requires key in KEYS
    ensures Of(SortByTier(effects), key) == Of(effects, key)
  {
    GatherKeepsTier(effects, KEYS, key);
  }

  /** An effect not listed among the keys makes no difference. */
  lemma {:induction false} GatherSkips(e: Effect, effects: seq<Effect>, keys: seq<nat>)
    requires Key(e) !in keys
    ensures Gather([e] + effects, keys) == Gather(effects, keys)
  {
    if keys != [] {
      GatherSkips(e, effects, keys[1..]);
      OfCons(e, effects, keys[0]);
    }
  }

  lemma {:induction false} NoneBelow(effects: seq<Effect>, key: nat)
    requires forall e :: e in effects ==> Key(e) > key
    ensures Of(effects, key) == []
  {
    if effects != [] {
      assert effects[0] in effects;
      NoneBelow(effects[1..], key);
    }
  }

  lemma {:induction false} GatherCons(e: Effect, effects: seq<Effect>, keys: seq<nat>)
    requires Increasing(keys) && Key(e) in keys
    requires forall x :: x in effects ==> Key(x) >= Key(e)
    ensures Gather([e] + effects, keys) == [e] + Gather(effects, keys)
  {
    OfCons(e, effects, keys[0]);
    if keys[0] == Key(e) {
      GatherSkips(e, effects, keys[1..]);
      ConcatAssoc([e], Of(effects, keys[0]), Gather(effects, keys[1..]));
    } else {
      GatherCons(e, effects, keys[1..]);
      NoneBelow(effects, keys[0]);
    }
  }

  lemma {:induction false} GatherNothing(keys: seq<nat>)
    ensures Gather([], keys) == []
  {
    if keys != [] { GatherNothing(keys[1..]); }
  }

  lemma {:induction false} SortedIsFixed(effects: seq<Effect>)
    requires TierSorted(effects)
    ensures SortByTier(effects) == effects
  {
    if effects == [] {
      GatherNothing(KEYS);
    } else {
      SortedIsFixed(effects[1..]);
      assert effects == [effects[0]] + effects[1..];
      GatherCons(effects[0], effects[1..], KEYS);
    }
  }

  lemma {:induction false} GatherCongruent(a: seq<Effect>, b: seq<Effect>, keys: seq<nat>)
    requires forall key: nat :: Of(a, key) == Of(b, key)
    ensures Gather(a, keys) == Gather(b, keys)
  {
    if keys != [] { GatherCongruent(a, b, keys[1..]); }
  }

  /** Any tier-sorted sequence with the same per-tier subsequences is the sorted frame. */
  lemma StableSortIsUnique(effects: seq<Effect>, sorted: seq<Effect>)
    requires TierSorted(sorted)
    requires forall key: nat :: Of(sorted, key) == Of(effects, key)
    ensures sorted == SortByTier(effects)
  {
    SortedIsFixed(sorted);
    GatherCongruent(sorted, effects, KEYS);
  }

  lemma {:induction false} CostAppend(costs: Costs, a: seq<Effect>, b: seq<Effect>)
    ensures TotalCost(costs, a + b) == TotalCost(costs, a) + TotalCost(costs, b)
  {
    if a == [] {
      assert a + b == b;
    } else {
      CostAppend(costs, a[1..], b);
      assert (a + b)[1..] == a[1..] + b;
    }
  }

  lemma {:induction false} GatherCost(costs: Costs, e: Effect, effects: seq<Effect>, keys: seq<nat>)
    requires Increasing(keys) && Key(e) in keys
    ensures TotalCost(costs, Gather([e] + effects, keys))
         == TotalCost(costs, [e]) + TotalCost(costs, Gather(effects, keys))
  {
    var of, rest := Of(effects, keys[0]), Gather(effects, keys[1..]);
    OfCons(e, effects, keys[0]);
    CostAppend(costs, of, rest);
    CostAppend(costs, Of([e] + effects, keys[0]), Gather([e] + effects, keys[1..]));
    if keys[0] == Key(e) {
      GatherSkips(e, effects, keys[1..]);
      CostAppend(costs, [e], of);
    } else {
      GatherCost(costs, e, effects, keys[1..]);
    }
  }

  lemma {:induction false} SortKeepsCost(costs: Costs, effects: seq<Effect>)
    ensures TotalCost(costs, SortByTier(effects)) == TotalCost(costs, effects)
  {
    if effects == [] {
      SortedIsFixed(effects);
    } else {
      SortKeepsCost(costs, effects[1..]);
      assert effects == [effects[0]] + effects[1..];
      GatherCost(costs, effects[0], effects[1..], KEYS);
      CostAppend(costs, [effects[0]], effects[1..]);
    }
  }

  /** With free text, the chosen effects never cost more than what is left of the budget. */
  lemma {:induction false} ChosenWithinBudget(costs: Costs, budget: nat, cost: nat, queue: seq<Scheduled>)
    requires WellQueued(queue) && costs.text == 0 && cost <= budget
    ensures cost + TotalCost(costs, Partition(costs, budget, cost, queue).chosen) <= budget
    decreases |queue|
  {
    if queue != [] {
      var s := queue[0];
      assert s in queue;
      var next := Spend(costs, budget, cost, s);
      ChosenWithinBudget(costs, budget, next, queue[1..]);
      var p := Partition(costs, budget, next, queue[1..]);
      assert ([s.effect] + p.chosen)[1..] == p.chosen;
    }
  }

  lemma WellQueuedCons(s: Scheduled, queue: seq<Scheduled>)
    requires WellQueued(queue)
    requires s.effect.ForwardToUi? && s.tier == Classify(s.effect.widget) && s.age <= U8_MAX
    requires forall r :: r in queue ==> r.age <= s.age
    ensures WellQueued([s] + queue)
  {
  }

  lemma {:induction false} RetainedIsWellQueued(costs: Costs, budget: nat, cost: nat, queue: seq<Scheduled>)
    requires WellQueued(queue)
    ensures WellQueued(Partition(costs, budget, cost, queue).retained)
    ensures queue != [] ==>
      forall r :: r in Partition(costs, budget, cost, queue).retained ==> r.age <= Aged(queue[0]).age
    decreases |queue|
  {
    if queue != [] {
      var s, rest := queue[0], queue[1..];
      WellQueuedTail(queue);
      var next := Spend(costs, budget, cost, s);
      RetainedIsWellQueued(costs, budget, next, rest);
      if rest != [] { assert queue[1].age <= queue[0].age; }
      WellQueuedCons(Aged(s), Partition(costs, budget, next, rest).retained);
    }
  }

  /** A frame leaves a well-formed queue, is sorted by tier and costs at most the budget. */
  lemma FrameIsGood(costs: Costs, budget: nat, queue: seq<Scheduled>)
    requires WellQueued(queue) && costs.text == 0
    ensures var p := Partition(costs, budget, 0, queue);
      && WellQueued(p.retained)
      && TierSorted(SortByTier(p.chosen))
      && TotalCost(costs, SortByTier(p.chosen)) <= budget
  {
    var p := Partition(costs, budget, 0, queue);
    RetainedIsWellQueued(costs, budget, 0, queue);
    ChosenWithinBudget(costs, budget, 0, queue);
    SortKeepsCost(costs, p.chosen);
    SortIsSorted(p.chosen);
  }

  /** Once a tier no longer fits, nothing more of it is chosen in this frame. */
  lemma {:induction false} SpentTierIsSkipped(costs: Costs, budget: nat, cost: nat, queue: seq<Scheduled>, tier: Tier)
    requires WellQueued(queue)
    requires tier != Text && cost + CostOf(costs, tier) > budget
    ensures Of(Partition(costs, budget, cost, queue).chosen, Rank(tier)) == []
    decreases |queue|
  {
    if queue != [] {
      var s := queue[0];
      assert s in queue;
      var next := Spend(costs, budget, cost, s);
      SpentTierIsSkipped(costs, budget, next, queue[1..], tier);
      var p := Partition(costs, budget, next, queue[1..]);
      assert ([s.effect] + p.chosen)[1..] == p.chosen;
    }
  }

  lemma EffectsCons(s: Scheduled, queue: seq<Scheduled>)
    ensures Effects([s] + queue) == [s.effect] + Effects(queue)
  {
    assert ([s] + queue)[1..] == queue;
  }

  lemma {:induction false} EffectsSnoc(queue: seq<Scheduled>, s: Scheduled)
    ensures Effects(queue + [s]) == Effects(queue) + [s.effect]
  {
    if queue == [] {
      assert queue + [s] == [s];
    } else {
      EffectsSnoc(queue[1..], s);
      assert (queue + [s])[1..] == queue[1..] + [s];
    }
  }

  /** No cosmetic entry is dropped from a queue whose entries are young enough. */
  lemma {:induction false} YoungAreNotDropped(costs: Costs, budget: nat, cost: nat, queue: seq<Scheduled>)
    requires forall s :: s in queue ==> !Expired(s)
    ensures Partition(costs, budget, cost, queue).dropped == []
    decreases |queue|
  {
    if queue != [] {
      var s := queue[0];
      assert s in queue;
      var next := if Fits(costs, budget, cost, s) then cost + CostOf(costs, s.tier) else cost;
      YoungAreNotDropped(costs, budget, next, queue[1..]);
    }
  }

  /** Only expired cosmetic entries are dropped. */
  lemma {:induction false} DroppedAreExpired(costs: Costs, budget: nat, cost: nat, queue: seq<Scheduled>)
    ensures forall d :: d in Partition(costs, budget, cost, queue).dropped ==> Expired(d)
    decreases |queue|
  {
    if queue != [] { DroppedAreExpired(costs, budget, Spend(costs, budget, cost, queue[0]), queue[1..]); }
  }

  lemma WellQueuedTail(queue: seq<Scheduled>)
    requires WellQueued(queue) && queue != []
    ensures WellQueued(queue[1..]) && queue[0] in queue && Key(queue[0].effect) == Rank(queue[0].tier)
  {
  }

  /** If the first entry is affordable neither now nor later, its tier shows nothing in this frame. */
  lemma SkippedHead(costs: Costs, budget: nat, cost: nat, queue: seq<Scheduled>)
    requires WellQueued(queue) && queue != []
    requires !Expired(queue[0]) && !Fits(costs, budget, cost, queue[0])
    ensures Of(Partition(costs, budget, cost, queue[1..]).chosen, Rank(queue[0].tier)) == []
  {
    WellQueuedTail(queue);
    SpentTierIsSkipped(costs, budget, cost, queue[1..], queue[0].tier);
  }

  lemma SplitShown(e: Effect, all: seq<Effect>, shown: seq<Effect>, kept: seq<Effect>, key: nat)
    requires Of(all, key) == Of(shown, key) + Of(kept, key)
    ensures Of([e] + all, key) == Of([e] + shown, key) + Of(kept, key)
  {
    OfCons(e, all, key);
    OfCons(e, shown, key);
    ConcatAssoc([e], Of(shown, key), Of(kept, key));
  }

  lemma SplitKept(e: Effect, all: seq<Effect>, shown: seq<Effect>, kept: seq<Effect>, key: nat)
    requires Of(all, key) == Of(shown, key) + Of(kept, key)
    requires Key(e) == key ==> Of(shown, key) == []
    ensures Of([e] + all, key) == Of(shown, key) + Of([e] + kept, key)
  {
    OfCons(e, all, key);
    OfCons(e, kept, key);
  }

  /** One frame splits each tier that loses nothing into what it shows, then what it keeps. */
  lemma {:induction false} FrameSplitsTier(costs: Costs, budget: nat, cost: nat, queue: seq<Scheduled>, tier: Tier)
    requires WellQueued(queue)
    requires tier.Cosmetic? ==> forall s :: s in queue ==> !Expired(s)
    ensures var p := Partition(costs, budget, cost, queue);
      Of(Effects(queue), Rank(tier)) == Of(p.chosen, Rank(tier)) + Of(Effects(p.retained), Rank(tier))
    decreases |queue|
  {
    if queue != [] {
      var s, rest := queue[0], queue[1..];
      WellQueuedTail(queue);
      var next := Spend(costs, budget, cost, s);
      FrameSplitsTier(costs, budget, next, rest, tier);
      var p := Partition(costs, budget, next, rest);
      if Expired(s) {
        OfCons(s.effect, Effects(rest), Rank(tier));
      } else if Fits(costs, budget, cost, s) {
        SplitShown(s.effect, Effects(rest), p.chosen, Effects(p.retained), Rank(tier));
      } else {
        EffectsCons(Aged(s), p.retained);
        if s.tier == tier { SkippedHead(costs, budget, cost, queue); }
        SplitKept(s.effect, Effects(rest), p.chosen, Effects(p.retained), Rank(tier));
      }
    }
  }

  lemma ConcatAssoc(a: seq<Effect>, b: seq<Effect>, c: seq<Effect>)
    ensures (a + b) + c == a + (b + c)
  {
  }

  /** The cosmetic tier is split into what the frame drops, then shows, then keeps. */
  lemma {:induction false} FrameSplitsCosmetic(costs: Costs, budget: nat, cost: nat, queue: seq<Scheduled>)
    requires WellQueued(queue)
    ensures var p := Partition(costs, budget, cost, queue);
      Of(Effects(queue), 3) == Effects(p.dropped) + (Of(p.chosen, 3) + Of(Effects(p.retained), 3))
    decreases |queue|
  {
    if queue != [] {
      var s, rest := queue[0], queue[1..];
      WellQueuedTail(queue);
      if s.tier.Cosmetic? && !Expired(s) {
        YoungerAreNotExpired(queue);
        YoungAreNotDropped(costs, budget, cost, queue);
        FrameSplitsTier(costs, budget, cost, queue, Cosmetic);
      } else {
        var next := Spend(costs, budget, cost, s);
        FrameSplitsCosmetic(costs, budget, next, rest);
        var p := Partition(costs, budget, next, rest);
        OfCons(s.effect, Effects(rest), 3);
        if Expired(s) {
          EffectsCons(s, p.dropped);
          ConcatAssoc([s.effect], Effects(p.dropped), Of(p.chosen, 3) + Of(Effects(p.retained), 3));
        } else {
          OfCons(s.effect, p.chosen, 3);
          EffectsCons(Aged(s), p.retained);
          OfCons(s.effect, Effects(p.retained), 3);
        }
      }
    }
  }

  lemma YoungerAreNotExpired(queue: seq<Scheduled>)
    requires WellQueued(queue) && queue != [] && queue[0].age <= MAX_AGE
    ensures forall r :: r in queue ==> !Expired(r)
  {
  }

  // ---------------------------------------------------------------------------
  // Whole runs: conservation
  // ---------------------------------------------------------------------------

  datatype Event = EnqueueEvent(effect: Effect) | BudgetEvent(ms: nat) | FrameEvent

  /** A composer together with everything that went in and came out.  `departed`
      lists the cosmetic effects that left, in order, with their fate. */
  datatype History = History(
    budget: nat, queue: seq<Scheduled>, enqueued: seq<Effect>, emitted: seq<Effect>, departed: seq<Departure>)

  datatype Departure = Departure(effect: Effect, age: nat, shown: bool)

  function Shown(effects: seq<Effect>): seq<Departure> {
    if effects == [] then [] else [Departure(effects[0], 0, true)] + Shown(effects[1..])
  }

  function Dropped(entries: seq<Scheduled>): seq<Departure> {
    if entries == [] then [] else [Departure(entries[0].effect, entries[0].age, false)] + Dropped(entries[1..])
  }

  function DepartedEffects(d: seq<Departure>): seq<Effect> {
    if d == [] then [] else [d[0].effect] + DepartedEffects(d[1..])
  }

  function ShownEffects(d: seq<Departure>): seq<Effect> {
    if d == [] then []
    else if d[0].shown then [d[0].effect] + ShownEffects(d[1..])
    else ShownEffects(d[1..])
  }

  function StepHistory(costs: Costs, h: History, e: Event): History {
    match e
    case EnqueueEvent(effect) =>
      h.(queue := Enqueued(h.queue, effect), enqueued := h.enqueued + [effect])
    case BudgetEvent(ms) => h.(budget := ms)
    case FrameEvent =>
      var p := Partition(costs, h.budget, 0, h.queue);
      h.(queue := p.retained,
         emitted := h.emitted + SortByTier(p.chosen),
         departed := h.departed + Dropped(p.dropped) + Shown(Of(p.chosen, 3)))
  }

  function RunHistory(costs: Costs, budget: nat, events: seq<Event>): History {
    if events == [] then History(budget, [], [], [], [])
    else StepHistory(costs, RunHistory(costs, budget, events[..|events| - 1]), events[|events| - 1])
  }

  lemma {:induction false} DepartedAppend(a: seq<Departure>, b: seq<Departure>)
    ensures DepartedEffects(a + b) == DepartedEffects(a) + DepartedEffects(b)
  {
    if a == [] {
      assert a + b == b;
    } else {
      DepartedAppend(a[1..], b);
      assert (a + b)[1..] == a[1..] + b;
    }
  }

  lemma {:induction false} ShownAppend(a: seq<Departure>, b: seq<Departure>)
    ensures ShownEffects(a + b) == ShownEffects(a) + ShownEffects(b)
  {
    if a == [] {
      assert a + b == b;
    } else {
      ShownAppend(a[1..], b);
      assert (a + b)[1..] == a[1..] + b;
    }
  }

  lemma {:induction false} DepartedShown(effects: seq<Effect>)
    ensures DepartedEffects(Shown(effects)) == ShownEffects(Shown(effects)) == effects
    ensures forall d :: d in Shown(effects) ==> d.shown
  {
    if effects != [] { DepartedShown(effects[1..]); }
  }

  lemma {:induction false} DepartedDropped(entries: seq<Scheduled>)
    requires forall s :: s in entries ==> Expired(s)
    ensures DepartedEffects(Dropped(entries)) == Effects(entries)
    ensures ShownEffects(Dropped(entries)) == []
    ensures forall d :: d in Dropped(entries) ==> !d.shown && d.age > 3
  {
    if entries != [] {
      assert entries[0] in entries;
      DepartedDropped(entries[1..]);
    }
  }

  /** What was emitted in a tier, followed by what is pending in it, is what was enqueued in it. */
  ghost predicate TierConserved(h: History, key: nat) {
    Of(h.emitted, key) + Of(Effects(h.queue), key) == Of(h.enqueued, key)
  }

  /** Cosmetic effects leave in the order they came, each either shown or too old. */
  ghost predicate CosmeticConserved(h: History) {
    && DepartedEffects(h.departed) + Of(Effects(h.queue), 3) == Of(h.enqueued, 3)
    && ShownEffects(h.departed) == Of(h.emitted, 3)
    && forall d :: d in h.departed && !d.shown ==> d.age > 3
  }

  /** Nothing is lost, duplicated or reordered within a tier. */
  ghost predicate Conserved(h: History) {
    && WellQueued(h.queue)
    && TierConserved(h, Rank(Text)) && TierConserved(h, Rank(Navigation)) && TierConserved(h, Rank(Semantic))
    && CosmeticConserved(h)
  }

  lemma FrameEmits(costs: Costs, h: History, key: nat)
    requires key <= 3
    ensures Of(StepHistory(costs, h, FrameEvent).emitted, key)
         == Of(h.emitted, key) + Of(Partition(costs, h.budget, 0, h.queue).chosen, key)
  {
    var p := Partition(costs, h.budget, 0, h.queue);
    SortIsStable(p.chosen, key);
    OfAppend(h.emitted, SortByTier(p.chosen), key);
  }

  lemma FrameConservesTier(costs: Costs, h: History, tier: Tier)
    requires WellQueued(h.queue) && !tier.Cosmetic? && TierConserved(h, Rank(tier))
    ensures TierConserved(StepHistory(costs, h, FrameEvent), Rank(tier))
  {
    var p := Partition(costs, h.budget, 0, h.queue);
    FrameEmits(costs, h, Rank(tier));
    FrameSplitsTier(costs, h.budget, 0, h.queue, tier);
    ConcatAssoc(Of(h.emitted, Rank(tier)), Of(p.chosen, Rank(tier)), Of(Effects(p.retained), Rank(tier)));
  }

  lemma FrameDepartures(costs: Costs, h: History)
    ensures var p := Partition(costs, h.budget, 0, h.queue);
      var departed := StepHistory(costs, h, FrameEvent).departed;
      && DepartedEffects(departed) == DepartedEffects(h.departed) + Effects(p.dropped) + Of(p.chosen, 3)
      && ShownEffects(departed) == ShownEffects(h.departed) + Of(p.chosen, 3)
      && forall d :: d in departed && d !in h.departed && !d.shown ==> d.age > MAX_AGE
  {
    var p := Partition(costs, h.budget, 0, h.queue);
    DroppedAreExpired(costs, h.budget, 0, h.queue);
    DeparturesCompose(h.departed, p.dropped, Of(p.chosen, 3));
  }

  lemma DeparturesCompose(before: seq<Departure>, dropped: seq<Scheduled>, chosen: seq<Effect>)
    requires forall s :: s in dropped ==> Expired(s)
    ensures var all := before + Dropped(dropped) + Shown(chosen);
      && DepartedEffects(all) == DepartedEffects(before) + Effects(dropped) + chosen
      && ShownEffects(all) == ShownEffects(before) + chosen
      && forall d :: d in all && d !in before && !d.shown ==> d.age > MAX_AGE
  {
    DepartedAppend(before, Dropped(dropped));
    DepartedAppend(before + Dropped(dropped), Shown(chosen));
    ShownAppend(before, Dropped(dropped));
    ShownAppend(before + Dropped(dropped), Shown(chosen));
    DepartedDropped(dropped);
    DepartedShown(chosen);
    assert ShownEffects(before) + [] == ShownEffects(before);
  }

  lemma FrameConservesCosmetic(costs: Costs, h: History)
    requires WellQueued(h.queue) && CosmeticConserved(h)
    ensures CosmeticConserved(StepHistory(costs, h, FrameEvent))
  {
    var p := Partition(costs, h.budget, 0, h.queue);
    FrameEmits(costs, h, 3);
    FrameSplitsCosmetic(costs, h.budget, 0, h.queue);
    FrameDepartures(costs, h);
    var before, dropped, chosen := DepartedEffects(h.departed), Effects(p.dropped), Of(p.chosen, 3);
    ConcatAssoc(before + dropped, chosen, Of(Effects(p.retained), 3));
    ConcatAssoc(before, dropped, chosen + Of(Effects(p.retained), 3));
  }

  lemma EnqueueTier(h: History, e: Effect, key: nat)
    requires key <= 3
    ensures Of(h.enqueued + [e], key) == Of(h.enqueued, key) + Of([e], key)
    ensures Of(Effects(Enqueued(h.queue, e)), key) == Of(Effects(h.queue), key) + Of([e], key)
  {
    OfAppend(h.enqueued, [e], key);
    if e.ForwardToUi? {
      EffectsSnoc(h.queue, Scheduled(e, Classify(e.widget), 0));
      OfAppend(Effects(h.queue), [e], key);
    }
  }

  lemma EnqueueConservesTier(costs: Costs, h: History, e: Effect, key: nat)
    requires key <= 3 && TierConserved(h, key)
    ensures TierConserved(StepHistory(costs, h, EnqueueEvent(e)), key)
  {
    EnqueueTier(h, e, key);
    ConcatAssoc(Of(h.emitted, key), Of(Effects(h.queue), key), Of([e], key));
  }

  lemma EnqueueConserves(costs: Costs, h: History, e: Effect)
    requires Conserved(h)
    ensures Conserved(StepHistory(costs, h, EnqueueEvent(e)))
  {
    EnqueueConservesTier(costs, h, e, Rank(Text));
    EnqueueConservesTier(costs, h, e, Rank(Navigation));
    EnqueueConservesTier(costs, h, e, Rank(Semantic));
    EnqueueTier(h, e, 3);
    ConcatAssoc(DepartedEffects(h.departed), Of(Effects(h.queue), 3), Of([e], 3));
  }

  lemma FrameConserves(costs: Costs, h: History)
    requires Conserved(h)
    ensures Conserved(StepHistory(costs, h, FrameEvent))
  {
    RetainedIsWellQueued(costs, h.budget, 0, h.queue);
    FrameConservesTier(costs, h, Text);
    FrameConservesTier(costs, h, Navigation);
    FrameConservesTier(costs, h, Semantic);
    FrameConservesCosmetic(costs, h);
  }

  /** Over every run of enqueues, budget changes and frames: in the text, navigation
      and semantic tiers, what was emitted followed by what is pending is what was
      enqueued; cosmetic effects leave in order, and only those older than three frames unseen. */
  lemma {:induction false} RunConserves(costs: Costs, budget: nat, events: seq<Event>)
    ensures Conserved(RunHistory(costs, budget, events))
  {
    if events != [] {
      var n := |events| - 1;
      RunConserves(costs, budget, events[..n]);
      var h := RunHistory(costs, budget, events[..n]);
      match events[n]
      case EnqueueEvent(e) => EnqueueConserves(costs, h, e);
      case BudgetEvent(_) =>
      case FrameEvent => FrameConserves(costs, h);
    }
  }

  // ---------------------------------------------------------------------------
  // Whole runs: starvation freedom
  // ---------------------------------------------------------------------------

  /** What a frame does with one entry: its position among the retained, chosen or dropped ones. */
  datatype Place = Waits(at: nat) | Leaves(at: nat) | Drops(at: nat)

  /** The place found in the rest of a queue, once the frame has dealt with the entry in front. */
  function Behind(costs: Costs, budget: nat, cost: nat, s: Scheduled, rest: Place): Place {
    match rest
    case Drops(i) => Drops(if Expired(s) then i + 1 else i)
    case Leaves(i) => Leaves(if !Expired(s) && Fits(costs, budget, cost, s) then i + 1 else i)
    case Waits(i) => Waits(if !Expired(s) && !Fits(costs, budget, cost, s) then i + 1 else i)
  }

  /** Where one frame puts the entry at position `k`. */
  function Moved(costs: Costs, budget: nat, cost: nat, queue: seq<Scheduled>, k: nat): Place
    requires k < |queue|
    decreases |queue|
  {
    var s := queue[0];
    if k > 0 then Behind(costs, budget, cost, s, Moved(costs, budget, Spend(costs, budget, cost, s), queue[1..], k - 1))
    else if Expired(s) then Drops(0)
    else if Fits(costs, budget, cost, s) then Leaves(0)
    else Waits(0)
  }

  /** `Moved` follows the entry itself: it is retained at that place, one frame older and no
      further back than before, or it is the chosen effect or the dropped entry at that place. */
  lemma {:induction false} MovedTracksEntry(costs: Costs, budget: nat, cost: nat, queue: seq<Scheduled>, k: nat)
    requires k < |queue|
    ensures var p := Partition(costs, budget, cost, queue);
      match Moved(costs, budget, cost, queue, k)
      case Leaves(i) => i < |p.chosen| && p.chosen[i] == queue[k].effect && !Expired(queue[k])
      case Drops(i) => i < |p.dropped| && p.dropped[i] == queue[k] && Expired(queue[k])
      case Waits(i) => i <= k && i < |p.retained| && p.retained[i] == Aged(queue[k]) && !Expired(queue[k])
    decreases |queue|
  {
    if k > 0 {
      MovedTracksEntry(costs, budget, Spend(costs, budget, cost, queue[0]), queue[1..], k - 1);
    }
  }

  /** Different entries have different places, in the order of the queue, so a copy of an
      entry is never taken for the entry. */
  lemma {:induction false} MovedKeepsOrder(costs: Costs, budget: nat, cost: nat, queue: seq<Scheduled>, j: nat, k: nat)
    requires j < k < |queue|
    ensures match (Moved(costs, budget, cost, queue, j), Moved(costs, budget, cost, queue, k))
      case (Leaves(a), Leaves(b)) => a < b
      case (Drops(a), Drops(b)) => a < b
      case (Waits(a), Waits(b)) => a < b
      case _ => true
    decreases |queue|
  {
    if j > 0 { MovedKeepsOrder(costs, budget, Spend(costs, budget, cost, queue[0]), queue[1..], j - 1, k - 1); }
  }

  /** An entry that keeps its position while nothing has been spent does not fit at all. */
  lemma {:induction false} StuckMeansUnaffordable(costs: Costs, budget: nat, cost: nat, queue: seq<Scheduled>, k: nat)
    requires k < |queue|
    requires Moved(costs, budget, cost, queue, k) == Waits(k)
    ensures !queue[k].tier.Text? && cost + CostOf(costs, queue[k].tier) > budget
    decreases |queue|
  {
    if k > 0 {
      var s := queue[0];
      var next := Spend(costs, budget, cost, s);
      MovedTracksEntry(costs, budget, next, queue[1..], k - 1);
      StuckMeansUnaffordable(costs, budget, next, queue[1..], k - 1);
    }
  }

  datatype Tracked = Tracked(budget: nat, queue: seq<Scheduled>, at: Option<nat>)

  function StepTracked(costs: Costs, t: Tracked, e: Event): Tracked {
    match e
    case EnqueueEvent(effect) => t.(queue := Enqueued(t.queue, effect))
    case BudgetEvent(ms) => t.(budget := ms)
    case FrameEvent =>
      Tracked(t.budget, Partition(costs, t.budget, 0, t.queue).retained,
              if t.at.Some? && t.at.value < |t.queue| then Waiting(Moved(costs, t.budget, 0, t.queue, t.at.value)) else None)
  }

  function Waiting(p: Place): Option<nat> {
    if p.Waits? then Some(p.at) else None
  }

  /** Follows the entry at position `t.at` through a run. */
  function Follow(costs: Costs, t: Tracked, events: seq<Event>): Tracked
    decreases |events|
  {
    if events == [] then t else Follow(costs, StepTracked(costs, t, events[0]), events[1..])
  }

  function Frames(events: seq<Event>): nat {
    if events == [] then 0 else (if events[0].FrameEvent? then 1 else 0) + Frames(events[1..])
  }

  /** Every frame of the run happens with at least this budget. */
  predicate BudgetsAllow(budget: nat, events: seq<Event>, cost: nat)
    decreases |events|
  {
    if events == [] then true
    else
      && (events[0].FrameEvent? ==> cost <= budget)
      && BudgetsAllow(if events[0].BudgetEvent? then events[0].ms else budget, events[1..], cost)
  }

  /** An entry with `k` others ahead of it, affordable in every later frame, has
      left the queue after `k + 1` frames, whatever is enqueued meanwhile. */
  lemma {:induction false} NoStarvation(costs: Costs, t: Tracked, events: seq<Event>)
    requires t.at.Some? ==> t.at.value < |t.queue|
    requires t.at.Some? ==>
      && BudgetsAllow(t.budget, events, CostOf(costs, t.queue[t.at.value].tier))
      && Frames(events) >= t.at.value + 1
    ensures Follow(costs, t, events).at.None?
    decreases |events|
  {
    if events != [] {
      var t' := StepTracked(costs, t, events[0]);
      if t.at.Some? && events[0].FrameEvent? {
        var k := t.at.value;
        MovedTracksEntry(costs, t.budget, 0, t.queue, k);
        if t'.at == Some(k) { StuckMeansUnaffordable(costs, t.budget, 0, t.queue, k); }
      }
      NoStarvation(costs, t', events[1..]);
    }
  }

  /** A cosmetic entry that has waited `age` frames is gone, shown or dropped,
      after `5 - age` more, under any budgets. */
  lemma {:induction false} CosmeticGoneByFifthFrame(costs: Costs, t: Tracked, events: seq<Event>)
    requires t.at.Some? ==> t.at.value < |t.queue|
    requires t.at.Some? ==>
      && t.queue[t.at.value].tier.Cosmetic?
      && Frames(events) + t.queue[t.at.value].age >= 5
      && Frames(events) >= 1
    ensures Follow(costs, t, events).at.None?
    decreases |events|
  {
    if events != [] {
      if t.at.Some? && events[0].FrameEvent? {
        MovedTracksEntry(costs, t.budget, 0, t.queue, t.at.value);
      }
      CosmeticGoneByFifthFrame(costs, StepTracked(costs, t, events[0]), events[1..]);
    }
  }

  // ---------------------------------------------------------------------------
  // How long an entry may wait
  // ---------------------------------------------------------------------------

  /** What has become of an entry, and in which frame after it was enqueued. */
  datatype Fate = StillWaits(frames: nat) | ShownIn(frame: nat) | DroppedIn(frame: nat)

  /** Follows the entry at position `k`, which has seen `n` frames, through a run. */
  function FateOf(costs: Costs, budget: nat, queue: seq<Scheduled>, k: nat, n: nat, events: seq<Event>): Fate
    requires k < |queue|
    decreases |events|
  {
    if events == [] then StillWaits(n)
    else
      match events[0]
      case EnqueueEvent(effect) => FateOf(costs, budget, Enqueued(queue, effect), k, n, events[1..])
      case BudgetEvent(ms) => FateOf(costs, ms, queue, k, n, events[1..])
      case FrameEvent =>
        match Moved(costs, budget, 0, queue, k)
        case Leaves(_) => ShownIn(n + 1)
        case Drops(_) => DroppedIn(n + 1)
        case Waits(i) =>
          MovedTracksEntry(costs, budget, 0, queue, k);
          FateOf(costs, budget, Partition(costs, budget, 0, queue).retained, i, n + 1, events[1..])
  }

  lemma {:induction false} CosmeticFate(costs: Costs, budget: nat, queue: seq<Scheduled>, k: nat, n: nat, events: seq<Event>)
    requires k < |queue| && queue[k].tier.Cosmetic? && queue[k].age == n <= 4
    ensures match FateOf(costs, budget, queue, k, n, events)
      case StillWaits(frames) => frames <= 4
      case ShownIn(frame) => frame <= 4
      case DroppedIn(frame) => frame == 5
    decreases |events|
  {
    if events != [] {
      match events[0]
      case EnqueueEvent(effect) => CosmeticFate(costs, budget, Enqueued(queue, effect), k, n, events[1..]);
      case BudgetEvent(ms) => CosmeticFate(costs, ms, queue, k, n, events[1..]);
      case FrameEvent =>
        MovedTracksEntry(costs, budget, 0, queue, k);
        match Moved(costs, budget, 0, queue, k)
        case Waits(i) => CosmeticFate(costs, budget, Partition(costs, budget, 0, queue).retained, i, n + 1, events[1..]);
        case _ =>
    }
  }

  /** In every run, whatever the budgets: a cosmetic effect is never dropped in the first four
      frames after it was enqueued, and in the fifth it is dropped exactly if none of the four
      showed it, so it is never shown later. */
  lemma CosmeticHasFourFrames(costs: Costs, budget: nat, queue: seq<Scheduled>, effect: Effect, events: seq<Event>)
    requires effect.ForwardToUi? && Classify(effect.widget) == Cosmetic
    ensures match FateOf(costs, budget, Enqueued(queue, effect), |queue|, 0, events)
      case StillWaits(frames) => frames <= 4
      case ShownIn(frame) => 1 <= frame <= 4
      case DroppedIn(frame) => frame == 5
  {
    CosmeticFate(costs, budget, Enqueued(queue, effect), |queue|, 0, events);
    FateCountsFrames(costs, budget, Enqueued(queue, effect), |queue|, 0, events);
  }

  lemma {:induction false} FateCountsFrames(costs: Costs, budget: nat, queue: seq<Scheduled>, k: nat, n: nat, events: seq<Event>)
    requires k < |queue|
    ensures match FateOf(costs, budget, queue, k, n, events)
      case StillWaits(frames) => frames == n + Frames(events)
      case ShownIn(frame) => n < frame <= n + Frames(events)
      case DroppedIn(frame) => n < frame <= n + Frames(events)
    decreases |events|
  {
    if events != [] {
      match events[0]
      case EnqueueEvent(effect) => FateCountsFrames(costs, budget, Enqueued(queue, effect), k, n, events[1..]);
      case BudgetEvent(ms) => FateCountsFrames(costs, ms, queue, k, n, events[1..]);
      case FrameEvent =>
        MovedTracksEntry(costs, budget, 0, queue, k);
        match Moved(costs, budget, 0, queue, k)
        case Waits(i) => FateCountsFrames(costs, budget, Partition(costs, budget, 0, queue).retained, i, n + 1, events[1..]);
        case _ =>
    }
  }

  /** Effects of the other tiers are never dropped. */
  lemma {:induction false} OthersAreNeverDropped(costs: Costs, budget: nat, queue: seq<Scheduled>, k: nat, n: nat, events: seq<Event>)
    requires k < |queue| && !queue[k].tier.Cosmetic?
    ensures !FateOf(costs, budget, queue, k, n, events).DroppedIn?
    decreases |events|
  {
    if events != [] {
      match events[0]
      case EnqueueEvent(effect) => OthersAreNeverDropped(costs, budget, Enqueued(queue, effect), k, n, events[1..]);
      case BudgetEvent(ms) => OthersAreNeverDropped(costs, ms, queue, k, n, events[1..]);
      case FrameEvent =>
        MovedTracksEntry(costs, budget, 0, queue, k);
        match Moved(costs, budget, 0, queue, k)
        case Waits(i) => OthersAreNeverDropped(costs, budget, Partition(costs, budget, 0, queue).retained, i, n + 1, events[1..]);
        case _ =>
    }
  }

  // ---------------------------------------------------------------------------
  // Tiers, costs and order written out
  // ---------------------------------------------------------------------------

  /** A batch's other effects, and its UI effects. */
  lemma {:induction false} BatchAppend(a: seq<Effect>, b: seq<Effect>, queue: seq<Scheduled>)
    ensures NonUiEffects(a + b) == NonUiEffects(a) + NonUiEffects(b)
    ensures EnqueuedAll(queue, a + b) == EnqueuedAll(EnqueuedAll(queue, a), b)
    decreases |a|
  {
    if a == [] {
      assert a + b == b;
    } else {
      assert (a + b)[1..] == a[1..] + b;
      BatchAppend(a[1..], b, Enqueued(queue, a[0]));
    }
  }

  /** A single effect of a batch either passes through or joins the end of the queue at age 0. */
  lemma BatchOfOne(e: Effect, queue: seq<Scheduled>)
    ensures e.ForwardToUi? ==>
      NonUiEffects([e]) == [] && EnqueuedAll(queue, [e]) == queue + [Scheduled(e, Classify(e.widget), 0)]
    ensures !e.ForwardToUi? ==> NonUiEffects([e]) == [e] && EnqueuedAll(queue, [e]) == queue
  {
    assert [e][1..] == [];
  }

  /** Which widgets make up each tier. */
  lemma TiersWrittenOut(w: Widget)
    ensures Classify(w) == Text <==> w.TextChunk?
    ensures Classify(w) == Navigation <==> w.Custom? && (w.widgetType == "focus" || w.widgetType == "scroll")
    ensures Classify(w) == Semantic <==>
      || w.Error? || w.CriticalError? || w.SystemDegraded? || w.NetworkError? || w.Status?
      || w.SubRoutineTimeout? || w.SubRoutineLoaded? || w.PendingTask?
      || (w.Custom? && (|| w.widgetType == "accordion_expand" || w.widgetType == "highlight"
                        || w.widgetType == "subroutine_loaded" || w.widgetType == "system_degraded"
                        || w.widgetType == "network_error" || w.widgetType == "status"
                        || w.widgetType == "error" || w.widgetType == "subroutine_timeout"))
  {
  }

  /** How many effects of a frame have a tier. */
  function CountTier(effects: seq<Effect>, tier: Tier): nat {
    if effects == [] then 0
    else CountTier(effects[1..], tier) + if effects[0].ForwardToUi? && Classify(effects[0].widget) == tier then 1 else 0
  }

  lemma {:induction false} CostByCounts(effects: seq<Effect>)
    requires AllUi(effects)
    ensures TotalCost(STANDARD_COSTS, effects)
         == CountTier(effects, Navigation) + 2 * CountTier(effects, Semantic) + 3 * CountTier(effects, Cosmetic)
  {
    if effects != [] { CostByCounts(effects[1..]); }
  }

  /** A position in the frame order: text, then navigation, semantic and cosmetic effects. */
  predicate NotAfter(a: Tier, b: Tier) {
    match b
    case Text => a == Text
    case Navigation => a == Text || a == Navigation
    case Semantic => a != Cosmetic
    case Cosmetic => true
  }

  ghost predicate AllUi(effects: seq<Effect>) {
    forall e :: e in effects ==> e.ForwardToUi?
  }

  lemma {:induction false} ChosenAreUi(costs: Costs, budget: nat, cost: nat, queue: seq<Scheduled>)
    requires forall s :: s in queue ==> s.effect.ForwardToUi?
    ensures AllUi(Partition(costs, budget, cost, queue).chosen)
    decreases |queue|
  {
    if queue != [] {
      assert queue[0] in queue;
      ChosenAreUi(costs, budget, Spend(costs, budget, cost, queue[0]), queue[1..]);
    }
  }

  lemma {:induction false} GatherStaysUi(effects: seq<Effect>, keys: seq<nat>)
    requires AllUi(effects)
    ensures AllUi(Gather(effects, keys))
  {
    if keys != [] {
      GatherStaysUi(effects, keys[1..]);
      OfMembers(effects, keys[0]);
    }
  }

  /** A standard composer's frame, in its own units: one per navigation effect, two per semantic
      and three per cosmetic one, at most the budget; and in the documented order. */
  lemma StandardFrame(budget: nat, queue: seq<Scheduled>)
    requires WellQueued(queue)
    ensures var frame := SortByTier(Partition(STANDARD_COSTS, budget, 0, queue).chosen);
      && AllUi(frame)
      && CountTier(frame, Navigation) + 2 * CountTier(frame, Semantic) + 3 * CountTier(frame, Cosmetic) <= budget
      && (forall i, j :: 0 <= i < j < |frame| ==> NotAfter(Classify(frame[i].widget), Classify(frame[j].widget)))
  {
    var frame := SortByTier(Partition(STANDARD_COSTS, budget, 0, queue).chosen);
    FrameIsGood(STANDARD_COSTS, budget, queue);
    ChosenAreUi(STANDARD_COSTS, budget, 0, queue);
    GatherStaysUi(Partition(STANDARD_COSTS, budget, 0, queue).chosen, KEYS);
    CostByCounts(frame);
  }

  /** An entry waits if and only if it is young enough or not cosmetic, is no text, and one, two or
      three units (navigation, semantic, cosmetic) on top of what was spent before it pass the budget. */
  lemma StandardWait(budget: nat, queue: seq<Scheduled>, k: nat)
    requires k < |queue|
    ensures var spent := SpentAt(STANDARD_COSTS, budget, 0, queue, k);
      Moved(STANDARD_COSTS, budget, 0, queue, k).Waits? <==>
        match queue[k].tier
        case Text => false
        case Navigation => spent + 1 > budget
        case Semantic => spent + 2 > budget
        case Cosmetic => queue[k].age <= 3 && spent + 3 > budget
  {
    MovedBySpending(STANDARD_COSTS, budget, 0, queue, k);
  }

  // ---------------------------------------------------------------------------
  // Priority order
  // ---------------------------------------------------------------------------

  /** The frame shows the entry at `j` and lets the more important one at `k` wait. */
  ghost predicate Inverts(costs: Costs, budget: nat, queue: seq<Scheduled>, j: nat, k: nat) {
    && j < |queue| && k < |queue|
    && Rank(queue[j].tier) > Rank(queue[k].tier)
    && Moved(costs, budget, 0, queue, j).Leaves? && Moved(costs, budget, 0, queue, k).Waits?
  }

  ghost predicate NeverInverts(costs: Costs, queue: seq<Scheduled>) {
    forall budget: nat, j, k :: !Inverts(costs, budget, queue, j, k)
  }

  /** No entry stands behind a less important one, expired and text entries aside. */
  ghost predicate ByPriority(queue: seq<Scheduled>) {
    forall j, k :: 0 <= j < k < |queue| && !Expired(queue[j]) && !Expired(queue[k]) && !queue[k].tier.Text?
      ==> Rank(queue[j].tier) <= Rank(queue[k].tier)
  }

  /** A more important tier costs no more, and only text may be free. */
  predicate Graded(costs: Costs) {
    0 < costs.navigation <= costs.semantic <= costs.cosmetic
  }

  /** What the frame has spent when it comes to the entry at `k`. */
  function SpentAt(costs: Costs, budget: nat, cost: nat, queue: seq<Scheduled>, k: nat): nat
    requires k <= |queue|
    decreases k
  {
    if k == 0 then cost else SpentAt(costs, budget, Spend(costs, budget, cost, queue[0]), queue[1..], k - 1)
  }

  /** An entry leaves, waits or is dropped by its own tier and what was spent before it. */
  lemma {:induction false} MovedBySpending(costs: Costs, budget: nat, cost: nat, queue: seq<Scheduled>, k: nat)
    requires k < |queue|
    ensures var place, fits := Moved(costs, budget, cost, queue, k), Fits(costs, budget, SpentAt(costs, budget, cost, queue, k), queue[k]);
      && (place.Leaves? <==> !Expired(queue[k]) && fits)
      && (place.Waits? <==> !Expired(queue[k]) && !fits)
    decreases k
  {
    if k > 0 { MovedBySpending(costs, budget, Spend(costs, budget, cost, queue[0]), queue[1..], k - 1); }
  }

  lemma {:induction false} SpendingGrows(costs: Costs, budget: nat, cost: nat, queue: seq<Scheduled>, j: nat, k: nat)
    requires j <= k <= |queue|
    ensures cost <= SpentAt(costs, budget, cost, queue, j) <= SpentAt(costs, budget, cost, queue, k)
    decreases k
  {
    if k > 0 {
      var next := Spend(costs, budget, cost, queue[0]);
      SpendingGrows(costs, budget, next, queue[1..], if j == 0 then 0 else j - 1, k - 1);
    }
  }

  lemma SpendNext(costs: Costs, budget: nat, cost: nat, queue: seq<Scheduled>, j: nat)
    requires j < |queue|
    ensures SpentAt(costs, budget, cost, queue, j + 1) == Spend(costs, budget, SpentAt(costs, budget, cost, queue, j), queue[j])
    decreases j
  {
    if j > 0 {
      SpendNext(costs, budget, Spend(costs, budget, cost, queue[0]), queue[1..], j - 1);
      assert queue[1..][j - 1] == queue[j];
    }
  }

  /** An inversion needs the less important entry to stand in front. */
  lemma InversionIsOvertaking(costs: Costs, budget: nat, queue: seq<Scheduled>, j: nat, k: nat)
    requires Graded(costs) && Inverts(costs, budget, queue, j, k)
    ensures j < k && !Expired(queue[j]) && !Expired(queue[k]) && !queue[k].tier.Text?
  {
    MovedBySpending(costs, budget, 0, queue, j);
    MovedBySpending(costs, budget, 0, queue, k);
    if k <= j { SpendingGrows(costs, budget, 0, queue, k, j); }
  }

  /** The cost of the unexpired entries among the first `j`. */
  function Needed(costs: Costs, queue: seq<Scheduled>, j: nat): nat
    requires j <= |queue|
  {
    if j == 0 then 0
    else Needed(costs, queue, j - 1) + if Expired(queue[j - 1]) then 0 else CostOf(costs, queue[j - 1].tier)
  }

  lemma {:induction false} NeededGrows(costs: Costs, queue: seq<Scheduled>, i: nat, j: nat)
    requires i <= j <= |queue|
    ensures Needed(costs, queue, i) <= Needed(costs, queue, j)
    decreases j
  {
    if i < j { NeededGrows(costs, queue, i, j - 1); }
  }

  /** With room for the first `j` entries, all of them that have not expired are paid for. */
  lemma {:induction false} SpentIsNeeded(costs: Costs, budget: nat, queue: seq<Scheduled>, j: nat)
    requires j <= |queue| && Needed(costs, queue, j) <= budget
    ensures SpentAt(costs, budget, 0, queue, j) == Needed(costs, queue, j)
    decreases j
  {
    if j > 0 {
      NeededGrows(costs, queue, j - 1, j);
      SpentIsNeeded(costs, budget, queue, j - 1);
      SpendNext(costs, budget, 0, queue, j - 1);
    }
  }

  /** A budget that ends exactly with the less important entry in front makes the other one wait. */
  lemma OvertakingInverts(costs: Costs, queue: seq<Scheduled>, j: nat, k: nat)
    requires Graded(costs) && j < k < |queue| && Rank(queue[j].tier) > Rank(queue[k].tier)
    requires !Expired(queue[j]) && !Expired(queue[k]) && !queue[k].tier.Text?
    ensures Inverts(costs, Needed(costs, queue, j + 1), queue, j, k)
  {
    var budget := Needed(costs, queue, j + 1);
    SpentIsNeeded(costs, budget, queue, j);
    SpentIsNeeded(costs, budget, queue, j + 1);
    SpendingGrows(costs, budget, 0, queue, j + 1, k);
    MovedBySpending(costs, budget, 0, queue, j);
    MovedBySpending(costs, budget, 0, queue, k);
  }

  /** No frame shows an effect while a more important one waits, whatever the budget, if and
      only if the queue already stands in priority order; `enqueue` keeps arrival order. */
  lemma NeverInvertsIff(costs: Costs, queue: seq<Scheduled>)
    requires Graded(costs)
    ensures NeverInverts(costs, queue) <==> ByPriority(queue)
  {
    if ByPriority(queue) {
      forall budget: nat, j, k ensures !Inverts(costs, budget, queue, j, k) {
        if Inverts(costs, budget, queue, j, k) { InversionIsOvertaking(costs, budget, queue, j, k); }
      }
    }
    if NeverInverts(costs, queue) {
      forall j, k | 0 <= j < k < |queue| && !Expired(queue[j]) && !Expired(queue[k]) && !queue[k].tier.Text?
        ensures Rank(queue[j].tier) <= Rank(queue[k].tier)
      {
        if Rank(queue[j].tier) > Rank(queue[k].tier) { OvertakingInverts(costs, queue, j, k); }
      }
    }
  }

  /** "Pending effects are sorted by priority before costs accumulate" fails: with budget 3 the
      cosmetic effect goes out and the navigation effect behind it waits. */
  lemma CosmeticBeforeNavigation(cosmetic: Scheduled, navigation: Scheduled)
    requires cosmetic.tier.Cosmetic? && cosmetic.age == 0 && navigation.tier.Navigation?
    ensures Inverts(STANDARD_COSTS, 3, [cosmetic, navigation], 0, 1)
  {
    var queue := [cosmetic, navigation];
    assert Needed(STANDARD_COSTS, queue, 1) == Needed(STANDARD_COSTS, queue, 0) + 3;
    OvertakingInverts(STANDARD_COSTS, queue, 0, 1);
  }
}
