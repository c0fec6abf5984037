/**
 Decision aggregation: the lexicographic aggregator and the negotiation broker,
 which collects decisions over several calls before it settles.
 */
module Broker {

  datatype Effect = CallLlmNetwork | OtherEffect(name: string)

  type Edit = string

  /** `Later` stands for variants added to the non-exhaustive enum. */
  datatype Decision =
    | Allow
    | Block(reason: string)
    | MutateHistory(edits: seq<Edit>)
    | RequestEffect(effect: Effect)
    | OverrideTransition(effects: seq<Effect>)
    | Later(name: string)

  // ---------------------------------------------------------------------------
  // Lexicographic aggregation
  // ---------------------------------------------------------------------------

  /** Block and override end an aggregation at once. */
  predicate Decides(d: Decision) {
    d.Block? || d.OverrideTransition?
  }

  predicate AnyDecides(ds: seq<Decision>) {
    exists i :: 0 <= i < |ds| && Decides(ds[i])
  }

  predicate AllAllow(ds: seq<Decision>) {
    forall i :: 0 <= i < |ds| ==> ds[i].Allow?
  }

  function Edits(ds: seq<Decision>): seq<Edit> {
    if ds == [] then []
    else
      var n := |ds| - 1;
      if ds[n].MutateHistory? then Edits(ds[..n]) + ds[n].edits else Edits(ds[..n])
  }

  function Effects(ds: seq<Decision>): seq<Effect> {
    if ds == [] then []
    else
      var n := |ds| - 1;
      if ds[n].RequestEffect? then Effects(ds[..n]) + [ds[n].effect] else Effects(ds[..n])
  }

  /** The first decisive decision; else all edits; else the first effect; else allow. */
  ghost predicate IsLexicographic(ds: seq<Decision>, r: Decision) {
    if AnyDecides(ds) then
      exists i :: 0 <= i < |ds| && Decides(ds[i]) && !AnyDecides(ds[..i]) && r == ds[i]
    else
      r == if Edits(ds) != [] then MutateHistory(Edits(ds))
           else if Effects(ds) != [] then RequestEffect(Effects(ds)[0])
           else Allow
  }

  lemma DecidesBefore(ds: seq<Decision>, i: nat, j: nat)
    requires i < j <= |ds| && Decides(ds[i])
    ensures AnyDecides(ds[..j])
  {
    assert ds[..j][i] == ds[i];
  }

  /** The result is determined by the decisions. */
  lemma LexicographicIsUnique(ds: seq<Decision>, r: Decision, q: Decision)
    requires IsLexicographic(ds, r) && IsLexicographic(ds, q)
    ensures r == q
  {
    if AnyDecides(ds) {
      var i :| 0 <= i < |ds| && Decides(ds[i]) && !AnyDecides(ds[..i]) && r == ds[i];
      var j :| 0 <= j < |ds| && Decides(ds[j]) && !AnyDecides(ds[..j]) && q == ds[j];
      if i < j { DecidesBefore(ds, i, j); }
      if j < i { DecidesBefore(ds, j, i); }
    }
  }

  /** A decisive result stays when more decisions follow. */
  lemma DecisiveStays(ds: seq<Decision>, more: seq<Decision>, r: Decision)
    requires IsLexicographic(ds, r) && AnyDecides(ds)
    ensures AnyDecides(ds + more) && IsLexicographic(ds + more, r)
  {
    var i :| 0 <= i < |ds| && Decides(ds[i]) && !AnyDecides(ds[..i]) && r == ds[i];
    assert (ds + more)[i] == ds[i] && (ds + more)[..i] == ds[..i];
  }

  /** Edits are collected in order, from the mutations only. */
  lemma {:induction false} EditsInOrder(a: seq<Decision>, b: seq<Decision>)
    ensures Edits(a + b) == Edits(a) + Edits(b)
    decreases |b|
  {
    if b == [] {
      assert a + b == a;
    } else {
      var n := |b| - 1;
      EditsInOrder(a, b[..n]);
      assert (a + b)[..|a| + n] == a + b[..n];
    }
  }

  /** And effects, from the requests only. */
  lemma {:induction false} EffectsInOrder(a: seq<Decision>, b: seq<Decision>)
    ensures Effects(a + b) == Effects(a) + Effects(b)
    decreases |b|
  {
    if b == [] {
      assert a + b == a;
    } else {
      var n := |b| - 1;
      EffectsInOrder(a, b[..n]);
      assert (a + b)[..|a| + n] == a + b[..n];
    }
  }

  lemma CollectedFromOne(d: Decision)
    ensures Edits([d]) == match d { case MutateHistory(edits) => edits case _ => [] }
    ensures Effects([d]) == match d { case RequestEffect(effect) => [effect] case _ => [] }
  {
    assert [d][..0] == [];
  }

  /** The result, written out: the first Block or Override; without one all edits, if there are
      any; without edits the first requested effect; else Allow. */
  lemma LexicographicSays(ds: seq<Decision>, r: Decision)
    requires IsLexicographic(ds, r)
    ensures (exists i :: 0 <= i < |ds| && (ds[i].Block? || ds[i].OverrideTransition?)) ==>
      exists i :: 0 <= i < |ds| && (ds[i].Block? || ds[i].OverrideTransition?) && r == ds[i]
                  && forall j :: 0 <= j < i ==> !ds[j].Block? && !ds[j].OverrideTransition?
    ensures (forall i :: 0 <= i < |ds| ==> !ds[i].Block? && !ds[i].OverrideTransition?) ==>
      r == if Edits(ds) != [] then MutateHistory(Edits(ds))
           else if Effects(ds) != [] then RequestEffect(Effects(ds)[0]) else Allow
  {
    if i :| 0 <= i < |ds| && (ds[i].Block? || ds[i].OverrideTransition?) {
      assert Decides(ds[i]);
      var k :| 0 <= k < |ds| && Decides(ds[k]) && !AnyDecides(ds[..k]) && r == ds[k];
      forall j | 0 <= j < k ensures !ds[j].Block? && !ds[j].OverrideTransition? { assert ds[..k][j] == ds[j]; }
    }
  }

  /** `LexicographicDecisionAggregator::aggregate_decisions`. */
  method Aggregate(decisions: seq<Decision>) returns (r: Decision)
    ensures IsLexicographic(decisions, r)
  {
    var edits: seq<Edit>, effects: seq<Effect> := [], [];
    var i := 0;
    while i < |decisions|
      invariant 0 <= i <= |decisions|
      invariant edits == Edits(decisions[..i]) && effects == Effects(decisions[..i])
      invariant !AnyDecides(decisions[..i])
    {
      assert decisions[..i + 1][..i] == decisions[..i];
      match decisions[i] {
        case Block(_) => return decisions[i];
        case OverrideTransition(_) => return decisions[i];
        case MutateHistory(e) => edits := edits + e;
        case RequestEffect(e) => effects := effects + [e];
        case _ =>
      }
      i := i + 1;
    }
    assert decisions[..i] == decisions;
    r := if edits != [] then MutateHistory(edits)
         else if effects != [] then RequestEffect(effects[0])
         else Allow;
  }

  // ---------------------------------------------------------------------------
  // The broker
  // ---------------------------------------------------------------------------

  const U8_RANGE := 256

  datatype Negotiation = Negotiation(currentPhase: nat, phaseDecisions: seq<Decision>, settled: bool)

  const FRESH := Negotiation(0, [], false)

  /** One call: the state it leaves, given what it returns.  The phase counter is a `u8`. */
  ghost predicate Calls(maxPhases: nat, before: Negotiation, decisions: seq<Decision>, after: Negotiation, r: Decision) {
    var phase := (before.currentPhase + 1) % U8_RANGE;
    var all := before.phaseDecisions + decisions;
    if before.settled || phase >= maxPhases || AllAllow(decisions) || AnyDecides(decisions) then
      && IsLexicographic(all, r)
      && after == if AnyDecides(all) then Negotiation(phase, all, true) else FRESH
    else
      r == RequestEffect(CallLlmNetwork) && after == Negotiation(phase, all, false)
  }

  class NegotiationState {
    var currentPhase: nat
    var phaseDecisions: seq<Decision>
    var settled: bool

    constructor ()
      ensures Model() == FRESH
    {
      currentPhase, phaseDecisions, settled := 0, [], false;
    }

    ghost function Model(): Negotiation
      reads this
    {
      Negotiation(currentPhase, phaseDecisions, settled)
    }
  }

  class NegotiationBroker {
    const maxPhases: nat

    constructor WithMaxPhases(maxPhases: nat)
      ensures this.maxPhases == maxPhases
    {
      this.maxPhases := maxPhases;
    }

    /** Accumulates this call's decisions and settles if it may. */
    method AggregateDecisions(decisions: seq<Decision>, state: NegotiationState) returns (r: Decision)
      modifies state
      ensures Calls(maxPhases, old(state.Model()), decisions, state.Model(), r)
    {
      state.phaseDecisions := state.phaseDecisions + decisions;
      state.currentPhase := (state.currentPhase + 1) % U8_RANGE;
      if state.currentPhase >= maxPhases || AllAllow(decisions) || AnyDecides(decisions) {
        state.settled := true;
      }
      if state.settled {
        r := Settle(state);
      } else {
        r := RequestEffect(CallLlmNetwork);
      }
    }

    /** The broker's own final pass over everything it accumulated; only a pass that
        reaches the end resets the state. */
    method Settle(state: NegotiationState) returns (r: Decision)
      modifies state
      ensures IsLexicographic(old(state.phaseDecisions), r)
      ensures state.Model() == if AnyDecides(old(state.phaseDecisions)) then old(state.Model()) else FRESH
    {
      var decisions := state.phaseDecisions;
      var edits: seq<Edit>, effects: seq<Effect> := [], [];
      for i := 0 to |decisions|
        invariant edits == Edits(decisions[..i]) && effects == Effects(decisions[..i])
        invariant !AnyDecides(decisions[..i])
        invariant state.Model() == old(state.Model())
      {
        assert decisions[..i + 1][..i] == decisions[..i];
        match decisions[i] {
          case Allow =>
          case Block(reason) => return Block(reason);
          case MutateHistory(e) => edits := edits + e;
          case RequestEffect(eff) => effects := effects + [eff];
          case OverrideTransition(ov) => return OverrideTransition(ov);
          case Later(_) =>
        }
      }
      assert decisions[..|decisions|] == decisions;
      state.currentPhase, state.phaseDecisions, state.settled := 0, [], false;
      if edits != [] { return MutateHistory(edits); }
      r := if effects != [] then RequestEffect(effects[0]) else Allow;
    }
  }

  lemma LexicographicDecides(ds: seq<Decision>, r: Decision)
    requires IsLexicographic(ds, r)
    ensures AnyDecides(ds) <==> Decides(r)
  {
  }

  // ---------------------------------------------------------------------------
  // Whole runs
  // ---------------------------------------------------------------------------

  /** The calls since the last reset, said without the broker's state: a settling
      call without a decisive decision closes the segment. */
  function Segment(maxPhases: nat, calls: seq<seq<Decision>>): seq<seq<Decision>> {
    if calls == [] then []
    else
      var n := |calls| - 1;
      var open := Segment(maxPhases, calls[..n]) + [calls[n]];
      if Settles(maxPhases, open) && !AnyDecides(Flat(open)) then [] else open
  }

  /** Whether the last call of an open segment settles. */
  predicate Settles(maxPhases: nat, open: seq<seq<Decision>>)
    requires open != []
  {
    |open| >= maxPhases || AllAllow(open[|open| - 1]) || AnyDecides(Flat(open))
  }

  function Flat(calls: seq<seq<Decision>>): seq<Decision> {
    if calls == [] then [] else Flat(calls[..|calls| - 1]) + calls[|calls| - 1]
  }

  /** Decision `i` of call `c` is a Block or an Override. */
  predicate BlocksOrOverrides(calls: seq<seq<Decision>>, c: nat, i: nat) {
    c < |calls| && i < |calls[c]| && (calls[c][i].Block? || calls[c][i].OverrideTransition?)
  }

  lemma {:induction false} FlatDecides(calls: seq<seq<Decision>>)
    ensures AnyDecides(Flat(calls)) <==> exists c: nat, i: nat :: BlocksOrOverrides(calls, c, i)
  {
    if calls != [] {
      var n := |calls| - 1;
      FlatDecides(calls[..n]);
      AnyDecidesAppend(Flat(calls[..n]), calls[n]);
      if AnyDecides(Flat(calls[..n])) {
        var c: nat, i: nat :| BlocksOrOverrides(calls[..n], c, i);
        assert BlocksOrOverrides(calls, c, i);
      }
      if AnyDecides(calls[n]) {
        var i: nat :| i < |calls[n]| && Decides(calls[n][i]);
        assert BlocksOrOverrides(calls, n, i);
      }
      if c: nat, i: nat :| BlocksOrOverrides(calls, c, i) {
        if c < n { assert BlocksOrOverrides(calls[..n], c, i); } else { assert Decides(calls[n][i]); }
      }
    }
  }

  /** When the last call of a segment settles, written out: enough calls since the last reset, a
      call whose decisions all allow, or a Block or Override received since then. */
  lemma SettlesSays(maxPhases: nat, open: seq<seq<Decision>>)
    requires open != []
    ensures var last := open[|open| - 1];
      Settles(maxPhases, open)
      <==> || |open| >= maxPhases
           || (forall i :: 0 <= i < |last| ==> last[i] == Allow)
           || exists c: nat, i: nat :: BlocksOrOverrides(open, c, i)
  {
    FlatDecides(open);
  }

  /** A run of the broker from a fresh state: the successive states and results. */
  ghost predicate IsRun(maxPhases: nat, calls: seq<seq<Decision>>, states: seq<Negotiation>, results: seq<Decision>) {
    && |states| == |calls| + 1 && |results| == |calls|
    && states[0] == FRESH
    && forall i :: 0 <= i < |calls| ==> Calls(maxPhases, states[i], calls[i], states[i + 1], results[i])
  }

  /** The calls of the segment that call `i` extends, itself included. */
  function Open(maxPhases: nat, calls: seq<seq<Decision>>, i: nat): (open: seq<seq<Decision>>)
    requires i < |calls|
    ensures open != []
  {
    Segment(maxPhases, calls[..i]) + [calls[i]]
  }

  lemma SegmentSnoc(maxPhases: nat, calls: seq<seq<Decision>>, i: nat)
    requires i < |calls|
    ensures var open := Open(maxPhases, calls, i);
      Segment(maxPhases, calls[..i + 1]) == if Settles(maxPhases, open) && !AnyDecides(Flat(open)) then [] else open
  {
    assert calls[..i + 1][..i] == calls[..i];
  }

  /** What the broker's state records of the open segment. */
  ghost predicate Records(maxPhases: nat, segment: seq<seq<Decision>>, s: Negotiation) {
    && s == Negotiation(|segment| % U8_RANGE, Flat(segment), AnyDecides(Flat(segment)))
    && (AnyDecides(Flat(segment)) || segment == [] || |segment| < maxPhases)
  }

  lemma FlatSnoc(segment: seq<seq<Decision>>, ds: seq<Decision>)
    ensures Flat(segment + [ds]) == Flat(segment) + ds
  {
    assert (segment + [ds])[..|segment|] == segment;
  }

  lemma AnyDecidesAppend(a: seq<Decision>, b: seq<Decision>)
    ensures AnyDecides(a + b) <==> AnyDecides(a) || AnyDecides(b)
  {
    if AnyDecides(a) { var i :| 0 <= i < |a| && Decides(a[i]); assert Decides((a + b)[i]); }
    if AnyDecides(b) { var i :| 0 <= i < |b| && Decides(b[i]); assert Decides((a + b)[|a| + i]); }
  }

  /** The broker's test for settling, on its counter and flag, is the one on the segment. */
  lemma SettlingTests(maxPhases: nat, segment: seq<seq<Decision>>, s: Negotiation, ds: seq<Decision>)
    requires maxPhases < U8_RANGE && Records(maxPhases, segment, s)
    ensures (s.currentPhase + 1) % U8_RANGE == (|segment| + 1) % U8_RANGE
    ensures (s.settled || (s.currentPhase + 1) % U8_RANGE >= maxPhases || AllAllow(ds) || AnyDecides(ds))
       <==> Settles(maxPhases, segment + [ds])
  {
    FlatSnoc(segment, ds);
    AnyDecidesAppend(Flat(segment), ds);
    if !s.settled { assert |segment| + 1 < U8_RANGE; }
  }

  lemma CallExtendsSegment(maxPhases: nat, segment: seq<seq<Decision>>, s: Negotiation, ds: seq<Decision>, s': Negotiation, r: Decision)
    requires maxPhases < U8_RANGE
    requires Records(maxPhases, segment, s) && Calls(maxPhases, s, ds, s', r)
    ensures var open := segment + [ds];
      && (Settles(maxPhases, open) ==> IsLexicographic(Flat(open), r))
      && (!Settles(maxPhases, open) ==> r == RequestEffect(CallLlmNetwork))
      && Records(maxPhases, if Settles(maxPhases, open) && !AnyDecides(Flat(open)) then [] else open, s')
  {
    SettlingTests(maxPhases, segment, s, ds);
    FlatSnoc(segment, ds);
  }

  /** Every settling call returns what the lexicographic aggregator returns on all decisions
      since the last reset; every other call asks for another LLM round. */
  lemma {:induction false} BrokerRefinesAggregator(
    maxPhases: nat, calls: seq<seq<Decision>>, states: seq<Negotiation>, results: seq<Decision>, i: nat)
    requires maxPhases < U8_RANGE && IsRun(maxPhases, calls, states, results) && i < |calls|
    ensures var open := Open(maxPhases, calls, i);
      && Records(maxPhases, Segment(maxPhases, calls[..i]), states[i])
      && (Settles(maxPhases, open) ==> IsLexicographic(Flat(open), results[i]))
      && (!Settles(maxPhases, open) ==> results[i] == RequestEffect(CallLlmNetwork))
      && Records(maxPhases, Segment(maxPhases, calls[..i + 1]), states[i + 1])
  {
    if i == 0 {
      assert calls[..0] == [];
    } else {
      BrokerRefinesAggregator(maxPhases, calls, states, results, i - 1);
    }
    CallExtendsSegment(maxPhases, Segment(maxPhases, calls[..i]), states[i], calls[i], states[i + 1], results[i]);
    SegmentSnoc(maxPhases, calls, i);
  }

  /** Once a call returns Block or Override, every later call returns the same. */
  lemma {:induction false} DecisionIsSticky(
    maxPhases: nat, calls: seq<seq<Decision>>, states: seq<Negotiation>, results: seq<Decision>, i: nat, j: nat)
    requires maxPhases < U8_RANGE && IsRun(maxPhases, calls, states, results) && i <= j < |calls|
    requires Decides(results[i])
    ensures results[j] == results[i]
    ensures AnyDecides(states[j + 1].phaseDecisions) && IsLexicographic(states[j + 1].phaseDecisions, results[i])
    ensures states[j + 1].settled
    decreases j
  {
    assert Calls(maxPhases, states[j], calls[j], states[j + 1], results[j]);
    if i == j {
      LexicographicDecides(states[j].phaseDecisions + calls[j], results[j]);
    } else {
      DecisionIsSticky(maxPhases, calls, states, results, i, j - 1);
      DecisiveStays(states[j].phaseDecisions, calls[j], results[i]);
      LexicographicIsUnique(states[j].phaseDecisions + calls[j], results[i], results[j]);
    }
  }

  // ---------------------------------------------------------------------------
  // Settling and the phase counter
  // ---------------------------------------------------------------------------

  ghost predicate Undecided(calls: seq<seq<Decision>>) {
    forall i :: 0 <= i < |calls| ==> !AnyDecides(calls[i])
  }

  function AtLeastOne(n: nat): nat {
    if n == 0 then 1 else n
  }

  /** Without Block or Override a segment stays open for fewer than `max(1, maxPhases)` calls. */
  lemma {:induction false} SegmentStaysShort(maxPhases: nat, calls: seq<seq<Decision>>)
    requires Undecided(calls)
    ensures !AnyDecides(Flat(Segment(maxPhases, calls)))
    ensures |Segment(maxPhases, calls)| < AtLeastOne(maxPhases)
  {
    if calls != [] {
      var n := |calls| - 1;
      SegmentStaysShort(maxPhases, calls[..n]);
      FlatSnoc(Segment(maxPhases, calls[..n]), calls[n]);
      AnyDecidesAppend(Flat(Segment(maxPhases, calls[..n])), calls[n]);
    }
  }

  lemma {:induction false} OpenCallsAddUp(maxPhases: nat, calls: seq<seq<Decision>>, i: nat, m: nat)
    requires i + m <= |calls|
    requires forall j :: i <= j < i + m ==> !Settles(maxPhases, Open(maxPhases, calls, j))
    ensures |Segment(maxPhases, calls[..i + m])| == |Segment(maxPhases, calls[..i])| + m
    decreases m
  {
    if m > 0 {
      OpenCallsAddUp(maxPhases, calls, i, m - 1);
      SegmentSnoc(maxPhases, calls, i + m - 1);
    }
  }

  /** Without Block or Override the broker settles in any `max(1, maxPhases)` consecutive calls. */
  lemma SettlesInTime(maxPhases: nat, calls: seq<seq<Decision>>, i: nat)
    requires Undecided(calls) && i + AtLeastOne(maxPhases) <= |calls|
    ensures exists j :: i <= j < i + AtLeastOne(maxPhases) && Settles(maxPhases, Open(maxPhases, calls, j))
  {
    var m := AtLeastOne(maxPhases);
    SegmentStaysShort(maxPhases, calls[..i + m]);
    if forall j :: i <= j < i + m ==> !Settles(maxPhases, Open(maxPhases, calls, j)) {
      OpenCallsAddUp(maxPhases, calls, i, m);
    }
  }

  /** A call overflows the counter exactly when its segment already holds a decisive
      decision and 255 calls more than a multiple of 256. */
  lemma PhaseOverflowsIff(
    maxPhases: nat, calls: seq<seq<Decision>>, states: seq<Negotiation>, results: seq<Decision>, i: nat)
    requires maxPhases < U8_RANGE && IsRun(maxPhases, calls, states, results) && i < |calls|
    ensures var segment := Segment(maxPhases, calls[..i]);
      states[i].currentPhase + 1 == U8_RANGE <==> AnyDecides(Flat(segment)) && |segment| % U8_RANGE == U8_RANGE - 1
  {
    BrokerRefinesAggregator(maxPhases, calls, states, results, i);
    RecordedPhase(maxPhases, Segment(maxPhases, calls[..i]), states[i]);
  }

  lemma RecordedPhase(maxPhases: nat, segment: seq<seq<Decision>>, s: Negotiation)
    requires maxPhases < U8_RANGE && Records(maxPhases, segment, s)
    ensures s.currentPhase + 1 == U8_RANGE <==> AnyDecides(Flat(segment)) && |segment| % U8_RANGE == U8_RANGE - 1
  {
    var n := |segment|;
    assert s.currentPhase == n % U8_RANGE;
    if !AnyDecides(Flat(segment)) {
      assert n + 1 < U8_RANGE;
      SmallPhase(n);
    }
  }

  lemma SmallPhase(n: nat)
    requires n < U8_RANGE
    ensures n % U8_RANGE == n
  {
  }

  /** Without Block or Override it never does. */
  lemma PhaseNeverOverflows(
    maxPhases: nat, calls: seq<seq<Decision>>, states: seq<Negotiation>, results: seq<Decision>, i: nat)
    requires maxPhases < U8_RANGE && IsRun(maxPhases, calls, states, results) && i < |calls|
    requires Undecided(calls)
    ensures states[i].currentPhase + 1 < U8_RANGE
  {
    PhaseOverflowsIff(maxPhases, calls, states, results, i);
    BrokerRefinesAggregator(maxPhases, calls, states, results, i);
    SegmentStaysShort(maxPhases, calls[..i]);
  }

  lemma DecidedStarts(maxPhases: nat, call: seq<Decision>)
    requires AnyDecides(call)
    ensures Segment(maxPhases, [call]) == [call] && AnyDecides(Flat([call]))
  {
    assert [call][..0] == [] && [] + [call] == [call];
    assert Flat([call]) == [] + call == call;
  }

  lemma DecidedGoesOn(maxPhases: nat, calls: seq<seq<Decision>>, call: seq<Decision>)
    requires Segment(maxPhases, calls) == calls && AnyDecides(Flat(calls))
    ensures Segment(maxPhases, calls + [call]) == calls + [call] && AnyDecides(Flat(calls + [call]))
  {
    assert (calls + [call])[..|calls|] == calls;
    AnyDecidesAppend(Flat(calls), call);
  }

  lemma {:induction false} DecidedSegmentGrows(maxPhases: nat, calls: seq<seq<Decision>>)
    requires calls != [] && AnyDecides(calls[0])
    ensures Segment(maxPhases, calls) == calls && AnyDecides(Flat(calls))
  {
    var n := |calls| - 1;
    assert calls[..n] + [calls[n]] == calls;
    if n == 0 {
      DecidedStarts(maxPhases, calls[0]);
      assert [calls[0]] == calls;
    } else {
      DecidedSegmentGrows(maxPhases, calls[..n]);
      DecidedGoesOn(maxPhases, calls[..n], calls[n]);
    }
  }

  /** A run that starts with a Block or Override overflows the counter in its 256th call. */
  lemma BlockedRunOverflows(
    maxPhases: nat, calls: seq<seq<Decision>>, states: seq<Negotiation>, results: seq<Decision>)
    requires maxPhases < U8_RANGE && IsRun(maxPhases, calls, states, results)
    requires |calls| >= U8_RANGE && AnyDecides(calls[0])
    ensures states[U8_RANGE - 1].currentPhase + 1 == U8_RANGE
  {
    DecidedSegmentGrows(maxPhases, calls[..U8_RANGE - 1]);
    PhaseOverflowsIff(maxPhases, calls, states, results, U8_RANGE - 1);
  }
}
