// The circuit breaker that keeps failing crawl strategies out of a crawl.
// Instants are nanoseconds; `horizon` is the last one the clock can represent.
module StrategyCircuit {
  import opened Prelude

  const U32_MAX: nat := 0xffff_ffff
  const NANOS: nat := 1_000_000_000

  datatype Policy = Policy(failureThreshold: nat, cooldown: nat, horizon: nat)

  datatype State = State(consecutiveFailures: nat, openUntil: Option<nat>, probeInFlight: bool)

  datatype Sample = Sample(strategy: string, attempts: nat, healthy: nat)

  datatype Snapshot = Snapshot(state: string, consecutiveFailures: nat, cooldownRemainingSeconds: nat)

  const FRESH := State(0, None, false)

  function CheckedAdd(policy: Policy, now: nat): Option<nat> {
    if now + policy.cooldown <= policy.horizon then Some(now + policy.cooldown) else None
  }

  function SaturatingSucc(n: nat): nat {
    if n < U32_MAX then n + 1 else n
  }

  // ---- One strategy -------------------------------------------------------

  predicate Admits(s: State, now: nat) {
    match s.openUntil
    case None => true
    case Some(until) => until <= now && !s.probeInFlight
  }

  function Selected(s: State, now: nat): State {
    if s.openUntil.Some? && Admits(s, now) then s.(probeInFlight := true) else s
  }

  function Failed(policy: Policy, s: State, wasProbe: bool, now: nat): State {
    var failures := SaturatingSucc(s.consecutiveFailures);
    State(failures,
          if wasProbe || failures >= policy.failureThreshold then CheckedAdd(policy, now) else s.openUntil,
          s.probeInFlight)
  }

  function Observed(policy: Policy, s: State, outcome: Option<string>, crawlFailed: bool, now: nat): State {
    var idle := s.(probeInFlight := false);
    if outcome == Some("healthy") then State(0, None, false)
    else if outcome.Some? || crawlFailed then Failed(policy, idle, s.probeInFlight, now)
    else idle
  }

  function SnapshotOf(s: State, now: nat): Snapshot {
    if s.probeInFlight then Snapshot("half_open", s.consecutiveFailures, 0)
    else if s.openUntil.Some? && s.openUntil.value > now
    then Snapshot("open", s.consecutiveFailures, (s.openUntil.value - now) / NANOS)
    else Snapshot("closed", s.consecutiveFailures, 0)
  }

  // ---- All strategies -----------------------------------------------------

  type States = map<string, State>

  function StateOf(states: States, strategy: string): State {
    if strategy in states then states[strategy] else FRESH
  }

  function SelectAll(states: States, strategies: seq<string>, now: nat): (States, seq<bool>) {
    if strategies == [] then (states, [])
    else
      var last := |strategies| - 1;
      var (before, mask) := SelectAll(states, strategies[..last], now);
      var s := StateOf(before, strategies[last]);
      (before[strategies[last] := Selected(s, now)], mask + [Admits(s, now)])
  }

  function Outcome(outcomes: map<string, string>, strategy: string): Option<string> {
    if strategy in outcomes then Some(outcomes[strategy]) else None
  }

  function ObserveAll(policy: Policy, states: States, selected: seq<string>, outcomes: map<string, string>,
                      crawlFailed: bool, now: nat): States {
    if selected == [] then states
    else
      var last := |selected| - 1;
      var before := ObserveAll(policy, states, selected[..last], outcomes, crawlFailed, now);
      before[selected[last] :=
        Observed(policy, StateOf(before, selected[last]), Outcome(outcomes, selected[last]), crawlFailed, now)]
  }

  // The names whose flag in the mask is `flag`, in order.
  function Chosen(names: seq<string>, mask: seq<bool>, flag: bool): seq<string>
    requires |names| == |mask|
  {
    if names == [] then []
    else
      var last := |names| - 1;
      Chosen(names[..last], mask[..last], flag) + if mask[last] == flag then [names[last]] else []
  }

  lemma {:induction false} MaskLength(states: States, strategies: seq<string>, now: nat)
    ensures |SelectAll(states, strategies, now).1| == |strategies|
  {
    hide Selected, Admits, StateOf;
    if strategies != [] { MaskLength(states, strategies[..|strategies| - 1], now); }
  }

  // What validated settings ensure.
  predicate ValidPolicy(policy: Policy) {
    1 <= policy.failureThreshold <= U32_MAX
  }

  // A state without a probe that is open only at the threshold.
  predicate ValidStart(policy: Policy, s: State) {
    s.consecutiveFailures <= U32_MAX && !s.probeInFlight
    && (s.openUntil.Some? ==> s.consecutiveFailures >= policy.failureThreshold)
  }

  // Index of the last sample of a strategy.
  ghost predicate LastSample(history: seq<Sample>, strategy: string, i: int) {
    && 0 <= i < |history| && history[i].strategy == strategy
    && forall j :: i < j < |history| ==> history[j].strategy != strategy
  }

  // The last sample shows enough attempts and no healthy one.
  ghost predicate Unhealthy(policy: Policy, history: seq<Sample>, strategy: string) {
    exists i :: LastSample(history, strategy, i)
      && history[i].attempts >= policy.failureThreshold && history[i].healthy == 0
  }

  ghost predicate Collected(samples: map<string, Sample>, history: seq<Sample>) {
    && (forall name :: name in samples ==> exists i :: LastSample(history, name, i) && history[i] == samples[name])
    && (forall i :: 0 <= i < |history| ==> history[i].strategy in samples)
  }

  lemma CollectedStep(samples: map<string, Sample>, history: seq<Sample>, sample: Sample)
    requires Collected(samples, history)
    ensures Collected(samples[sample.strategy := sample], history + [sample])
  {
    var all, more := history + [sample], samples[sample.strategy := sample];
    forall name | name in more ensures exists i :: LastSample(all, name, i) && all[i] == more[name] {
      if name == sample.strategy {
        assert LastSample(all, name, |history|);
      } else {
        var i :| LastSample(history, name, i) && history[i] == samples[name];
        assert LastSample(all, name, i);
      }
    }
  }

  lemma CollectedUnhealthy(policy: Policy, samples: map<string, Sample>, history: seq<Sample>, name: string)
    requires Collected(samples, history)
    ensures Unhealthy(policy, history, name) <==>
      (name in samples && samples[name].attempts >= policy.failureThreshold && samples[name].healthy == 0)
  {
    if name in samples {
      var i :| LastSample(history, name, i) && history[i] == samples[name];
      forall k | LastSample(history, name, k) ensures k == i {
      }
    }
  }

  // What a snapshot shows: half open exactly while a probe is out, open exactly
  // while the deadline lies ahead, with the whole seconds left until then.
  ghost predicate Shows(shown: Snapshot, s: State, now: nat) {
    && shown.consecutiveFailures == s.consecutiveFailures
    && shown.state in {"half_open", "open", "closed"}
    && (shown.state == "half_open" <==> s.probeInFlight)
    && (shown.state == "open" <==> !s.probeInFlight && s.openUntil.Some? && s.openUntil.value > now)
    && (shown.state != "open" ==> shown.cooldownRemainingSeconds == 0)
    && (shown.state == "open" ==>
          shown.cooldownRemainingSeconds * NANOS <= s.openUntil.value - now
          < (shown.cooldownRemainingSeconds + 1) * NANOS)
  }

  class StrategyCircuitBreaker {
    const policy: Policy
    var states: States

    constructor (strategies: seq<string>, history: seq<Sample>, policy: Policy, now: nat)
      ensures this.policy == policy
      ensures forall name :: name in states <==> name in strategies
      ensures forall name :: name in strategies ==>
        states[name] == if Unhealthy(policy, history, name)
                        then State(policy.failureThreshold, CheckedAdd(policy, now), false) else FRESH
      ensures ValidPolicy(policy) ==> forall name :: ValidStart(policy, StateOf(states, name))
    {
      this.policy := policy;
      states := map[];
      new;
      var samples: map<string, Sample> := map[];
      for i := 0 to |history|
        invariant this.policy == policy && states == map[]
        invariant Collected(samples, history[..i])
      {
        CollectedStep(samples, history[..i], history[i]);
        assert history[..i + 1] == history[..i] + [history[i]];
        samples := samples[history[i].strategy := history[i]];
      }
      assert history[..|history|] == history;
      forall name ensures Unhealthy(policy, history, name) <==>
        (name in samples && samples[name].attempts >= policy.failureThreshold && samples[name].healthy == 0)
      {
        CollectedUnhealthy(policy, samples, history, name);
      }
      hide Unhealthy, Collected;
      states := map name | name in strategies ::
        if name in samples && samples[name].attempts >= policy.failureThreshold && samples[name].healthy == 0
        then State(policy.failureThreshold, CheckedAdd(policy, now), false) else FRESH;
    }

    method Select(strategies: seq<string>, now: nat) returns (enabled: seq<string>, skipped: seq<string>)
      modifies this
      ensures states == SelectAll(old(states), strategies, now).0
      ensures var mask := SelectAll(old(states), strategies, now).1;
        |mask| == |strategies|
        && enabled == Chosen(strategies, mask, true) && skipped == Chosen(strategies, mask, false)
    {
      enabled, skipped := [], [];
      ghost var mask: seq<bool> := [];
      for i := 0 to |strategies|
        invariant |mask| == i && (states, mask) == SelectAll(old(states), strategies[..i], now)
        invariant enabled == Chosen(strategies[..i], mask, true)
        invariant skipped == Chosen(strategies[..i], mask, false)
      {
        var strategy := strategies[i];
        assert strategies[..i + 1][..i] == strategies[..i];
        var state := StateOf(states, strategy);
        ghost var admits := Admits(state, now);
        assert (mask + [admits])[..i] == mask;
        match state.openUntil {
          case Some(until) =>
            if now < until || state.probeInFlight {
              skipped := skipped + [strategy];
            } else {
              state := state.(probeInFlight := true);
              enabled := enabled + [strategy];
            }
          case None =>
            enabled := enabled + [strategy];
        }
        states := states[strategy := state];
        mask := mask + [admits];
      }
      assert strategies[..|strategies|] == strategies;
    }

    method Observe(selected: seq<string>, outcomes: map<string, string>, crawlFailed: bool, now: nat)
      modifies this
      ensures states == ObserveAll(policy, old(states), selected, outcomes, crawlFailed, now)
    {
      for i := 0 to |selected|
        invariant states == ObserveAll(policy, old(states), selected[..i], outcomes, crawlFailed, now)
      {
        var strategy := selected[i];
        assert selected[..i + 1][..i] == selected[..i];
        ghost var before := states;
        var state := StateOf(states, strategy);
        var wasProbe := state.probeInFlight;
        states := states[strategy := state.(probeInFlight := false)];
        if strategy in outcomes {
          if outcomes[strategy] == "healthy" {
            states := states[strategy := State(0, None, false)];
          } else {
            RecordFailure(strategy, wasProbe, now);
          }
        } else if crawlFailed {
          RecordFailure(strategy, wasProbe, now);
        }
        assert states == before[strategy := Observed(policy, state, Outcome(outcomes, strategy), crawlFailed, now)];
      }
      assert selected[..|selected|] == selected;
    }

    method RecordFailure(strategy: string, wasProbe: bool, now: nat)
      modifies this
      ensures states == old(states)[strategy := Failed(policy, StateOf(old(states), strategy), wasProbe, now)]
    {
      var state := StateOf(states, strategy);
      state := state.(consecutiveFailures := SaturatingSucc(state.consecutiveFailures));
      if wasProbe || state.consecutiveFailures >= policy.failureThreshold {
        state := state.(openUntil := CheckedAdd(policy, now));
      }
      states := states[strategy := state];
    }

    method Snapshots(now: nat) returns (r: map<string, Snapshot>)
      ensures r.Keys == states.Keys
      ensures forall name :: name in states ==> Shows(r[name], states[name], now)
    {
      hide Shows;
      r := map name | name in states :: SnapshotOf(states[name], now);
      forall name | name in states ensures Shows(r[name], states[name], now) {
        SnapshotShows(states[name], now);
      }
    }
  }

  lemma SnapshotShows(s: State, now: nat)
    ensures Shows(SnapshotOf(s, now), s, now)
  {
    assert |"half_open"| == 9 && |"open"| == 4 && |"closed"| == 6;
  }
}
