// The circuit of one strategy is a function of its history: the selections and
// observations that named it, in order.
module CircuitHistory {
  import opened Prelude
  import opened StrategyCircuit

  datatype Event =
    | Select(now: nat)
    | Observe(outcome: Option<string>, crawlFailed: bool, now: nat)

  function Step(policy: Policy, s: State, e: Event): State {
    match e
    case Select(now) => Selected(s, now)
    case Observe(outcome, crawlFailed, now) => Observed(policy, s, outcome, crawlFailed, now)
  }

  function After(policy: Policy, s: State, events: seq<Event>): State {
    if events == [] then s
    else Step(policy, After(policy, s, events[..|events| - 1]), events[|events| - 1])
  }

  lemma {:induction false} AfterAppend(policy: Policy, s: State, a: seq<Event>, b: seq<Event>)
    ensures After(policy, s, a + b) == After(policy, After(policy, s, a), b)
  {
    hide Step;
    if b != [] {
      assert (a + b)[..|a + b| - 1] == a + b[..|b| - 1];
      AfterAppend(policy, s, a, b[..|b| - 1]);
    } else {
      assert a + b == a;
    }
  }

  // ---- Calls on the whole breaker -----------------------------------------

  datatype Call =
    | SelectCall(strategies: seq<string>, now: nat)
    | ObserveCall(selected: seq<string>, outcomes: map<string, string>, crawlFailed: bool, now: nat)

  function Perform(policy: Policy, states: States, call: Call): States {
    match call
    case SelectCall(strategies, now) => SelectAll(states, strategies, now).0
    case ObserveCall(selected, outcomes, crawlFailed, now) =>
      ObserveAll(policy, states, selected, outcomes, crawlFailed, now)
  }

  function Run(policy: Policy, states: States, calls: seq<Call>): States {
    if calls == [] then states
    else Perform(policy, Run(policy, states, calls[..|calls| - 1]), calls[|calls| - 1])
  }

  // One event for every time the name is listed.
  function Each(names: seq<string>, name: string, e: Event): seq<Event> {
    if names == [] then []
    else Each(names[..|names| - 1], name, e) + if names[|names| - 1] == name then [e] else []
  }

  function EventsOf(call: Call, name: string): seq<Event> {
    match call
    case SelectCall(strategies, now) => Each(strategies, name, Select(now))
    case ObserveCall(selected, outcomes, crawlFailed, now) =>
      Each(selected, name, Observe(Outcome(outcomes, name), crawlFailed, now))
  }

  function History(calls: seq<Call>, name: string): seq<Event> {
    if calls == [] then []
    else History(calls[..|calls| - 1], name) + EventsOf(calls[|calls| - 1], name)
  }

  lemma OneMore(policy: Policy, s: State, events: seq<Event>, e: Event)
    ensures After(policy, s, events + [e]) == Step(policy, After(policy, s, events), e)
    ensures After(policy, s, events + []) == After(policy, s, events)
  {
    assert (events + [e])[..|events|] == events;
    assert events + [] == events;
  }

  lemma {:induction false} SelectProjects(policy: Policy, states: States, strategies: seq<string>, now: nat,
                                          name: string)
    ensures StateOf(SelectAll(states, strategies, now).0, name)
            == After(policy, StateOf(states, name), Each(strategies, name, Select(now)))
  {
    hide Selected, Admits, After;
    if strategies != [] {
      var front := strategies[..|strategies| - 1];
      SelectProjects(policy, states, front, now, name);
      OneMore(policy, StateOf(states, name), Each(front, name, Select(now)), Select(now));
    } else {
      NoEvents(policy, StateOf(states, name));
    }
  }

  lemma NoEvents(policy: Policy, s: State)
    ensures After(policy, s, []) == s
  {
  }

  lemma {:induction false} ObserveProjects(policy: Policy, states: States, selected: seq<string>,
                                           outcomes: map<string, string>, crawlFailed: bool, now: nat, name: string)
    ensures StateOf(ObserveAll(policy, states, selected, outcomes, crawlFailed, now), name)
            == After(policy, StateOf(states, name),
                     Each(selected, name, Observe(Outcome(outcomes, name), crawlFailed, now)))
  {
    hide Observed, Outcome, After;
    if selected != [] {
      var front, e := selected[..|selected| - 1], Observe(Outcome(outcomes, name), crawlFailed, now);
      ObserveProjects(policy, states, front, outcomes, crawlFailed, now, name);
      OneMore(policy, StateOf(states, name), Each(front, name, e), e);
    } else {
      NoEvents(policy, StateOf(states, name));
    }
  }

  // Strategies do not influence each other.
  lemma {:induction false} RunProjects(policy: Policy, states: States, calls: seq<Call>, name: string)
    ensures StateOf(Run(policy, states, calls), name) == After(policy, StateOf(states, name), History(calls, name))
  {
    hide StateOf, SelectAll, ObserveAll, Each, After, Outcome;
    if calls != [] {
      var front, call := calls[..|calls| - 1], calls[|calls| - 1];
      var states1 := Run(policy, states, front);
      RunProjects(policy, states, front, name);
      AfterAppend(policy, StateOf(states, name), History(front, name), EventsOf(call, name));
      match call
      case SelectCall(strategies, now) => SelectProjects(policy, states1, strategies, now, name);
      case ObserveCall(selected, outcomes, crawlFailed, now) =>
        ObserveProjects(policy, states1, selected, outcomes, crawlFailed, now, name);
    } else {
      NoEvents(policy, StateOf(states, name));
    }
  }

  // ---- The state read off the history -------------------------------------

  predicate Healthy(e: Event) {
    e.Observe? && e.outcome == Some("healthy")
  }

  predicate Failure(e: Event) {
    e.Observe? && e.outcome != Some("healthy") && (e.outcome.Some? || e.crawlFailed)
  }

  // The events after the last healthy one.
  function SinceHealthy(events: seq<Event>): seq<Event> {
    if events == [] || Healthy(events[|events| - 1]) then []
    else SinceHealthy(events[..|events| - 1]) + [events[|events| - 1]]
  }

  // The events after the last observation.
  function SinceObserved(events: seq<Event>): seq<Event> {
    if events == [] || events[|events| - 1].Observe? then []
    else SinceObserved(events[..|events| - 1]) + [events[|events| - 1]]
  }

  predicate EverHealthy(events: seq<Event>) {
    exists i :: 0 <= i < |events| && Healthy(events[i])
  }

  function CountFailures(events: seq<Event>): nat {
    if events == [] then 0
    else CountFailures(events[..|events| - 1]) + if Failure(events[|events| - 1]) then 1 else 0
  }

  function LastFailure(events: seq<Event>): Option<nat> {
    if events == [] then None
    else if Failure(events[|events| - 1]) then Some(events[|events| - 1].now)
    else LastFailure(events[..|events| - 1])
  }

  function Saturated(n: nat): nat {
    if n <= U32_MAX then n else U32_MAX
  }

  // Recorded failures, with those the stored history stands for until the
  // strategy is healthy once.
  function Failures(s0: State, events: seq<Event>): nat {
    (if EverHealthy(events) then 0 else s0.consecutiveFailures) + CountFailures(SinceHealthy(events))
  }

  // When the circuit is open, and until when.
  function OpenUntil(policy: Policy, s0: State, events: seq<Event>): Option<nat> {
    if Failures(s0, events) < policy.failureThreshold then None
    else
      match LastFailure(SinceHealthy(events))
      case None => s0.openUntil
      case Some(t) => CheckedAdd(policy, t)
  }

  predicate ProbeOut(openUntil: Option<nat>, events: seq<Event>) {
    openUntil.Some? && exists i :: 0 <= i < |events| && events[i].Select? && events[i].now >= openUntil.value
  }

  ghost predicate Explained(policy: Policy, s0: State, events: seq<Event>, s: State) {
    && s.consecutiveFailures == Saturated(Failures(s0, events))
    && s.openUntil == OpenUntil(policy, s0, events)
    && (s.probeInFlight <==> ProbeOut(s.openUntil, SinceObserved(events)))
  }

  lemma LastEvent(events: seq<Event>, e: Event)
    ensures SinceHealthy(events + [e]) == if Healthy(e) then [] else SinceHealthy(events) + [e]
    ensures SinceObserved(events + [e]) == if e.Observe? then [] else SinceObserved(events) + [e]
    ensures EverHealthy(events + [e]) <==> EverHealthy(events) || Healthy(e)
    ensures CountFailures(events + [e]) == CountFailures(events) + if Failure(e) then 1 else 0
    ensures LastFailure(events + [e]) == if Failure(e) then Some(e.now) else LastFailure(events)
  {
  }

  lemma {:induction false} NoFailureNoCount(events: seq<Event>)
    ensures LastFailure(events).None? <==> CountFailures(events) == 0
  {
    hide Failure;
    if events != [] { NoFailureNoCount(events[..|events| - 1]); }
  }

  lemma ProbeGrows(openUntil: Option<nat>, events: seq<Event>, e: Event)
    requires e.Select?
    ensures ProbeOut(openUntil, events + [e]) <==>
      ProbeOut(openUntil, events) || (openUntil.Some? && e.now >= openUntil.value)
  {
    var all := events + [e];
    if openUntil.Some? {
      forall i | 0 <= i < |events| && events[i].Select? && events[i].now >= openUntil.value
        ensures ProbeOut(openUntil, all)
      {
        assert all[i] == events[i];
      }
      if e.now >= openUntil.value { assert all[|events|] == e; }
    }
  }

  lemma SelectExplained(policy: Policy, s0: State, events: seq<Event>, now: nat, s: State)
    requires Explained(policy, s0, events, s)
    ensures Explained(policy, s0, events + [Select(now)], Selected(s, now))
  {
    hide EverHealthy, ProbeOut, CountFailures, LastFailure, SinceHealthy, SinceObserved, CheckedAdd;
    var e := Select(now);
    LastEvent(events, e);
    LastEvent(SinceHealthy(events), e);
    ProbeGrows(s.openUntil, SinceObserved(events), e);
  }

  lemma ObserveExplained(policy: Policy, s0: State, events: seq<Event>, e: Event, s: State)
    requires ValidPolicy(policy) && ValidStart(policy, s0) && e.Observe?
    requires Explained(policy, s0, events, s)
    ensures Explained(policy, s0, events + [e], Step(policy, s, e))
  {
    hide EverHealthy, CountFailures, LastFailure, SinceHealthy, SinceObserved, CheckedAdd;
    LastEvent(events, e);
    LastEvent(SinceHealthy(events), e);
    assert CountFailures([]) == 0 && LastFailure([]).None? by { NoFailureNoCount([]); NothingCounted(); }
    assert !ProbeOut(Step(policy, s, e).openUntil, []);
  }

  lemma NothingCounted()
    ensures CountFailures([]) == 0
  {
  }

  // Failures, deadline and probe of a strategy, for every history: the failures
  // counted since it was last healthy, the last failure plus the cooldown, and
  // a selection at or after the deadline that nothing has answered yet.
  lemma {:induction false} HistoryExplains(policy: Policy, s0: State, events: seq<Event>)
    requires ValidPolicy(policy) && ValidStart(policy, s0)
    ensures Explained(policy, s0, events, After(policy, s0, events))
  {
    if events != [] {
      var front, e := events[..|events| - 1], events[|events| - 1];
      HistoryExplains(policy, s0, front);
      assert events == front + [e];
      hide Explained, Step, ValidPolicy, ValidStart;
      var s := After(policy, s0, front);
      match e
      case Select(now) =>
        SelectExplained(policy, s0, front, now, s);
        StepSelect(policy, s, now);
      case Observe(_, _, _) => ObserveExplained(policy, s0, front, e, s);
    } else {
      assert After(policy, s0, events) == s0;
    }
  }

  lemma StepSelect(policy: Policy, s: State, now: nat)
    ensures Step(policy, s, Select(now)) == Selected(s, now)
  {
  }

  // A strategy is admitted exactly when its circuit is closed, or its deadline
  // has passed and no selection since its last observation was at or after it.
  lemma {:induction false} AdmittedExactly(policy: Policy, s0: State, events: seq<Event>, now: nat)
    requires ValidPolicy(policy) && ValidStart(policy, s0)
    ensures Admits(After(policy, s0, events), now) <==>
      var until := OpenUntil(policy, s0, events);
      until.None? || (until.value <= now && !ProbeOut(until, SinceObserved(events)))
  {
    hide OpenUntil, SinceObserved, ProbeOut, Failures, ValidPolicy, ValidStart, After;
    HistoryExplains(policy, s0, events);
  }

  // ---- Invariants of every reachable state --------------------------------

  ghost predicate NoOverflow(policy: Policy, events: seq<Event>) {
    forall i :: 0 <= i < |events| ==> CheckedAdd(policy, events[i].now).Some?
  }

  lemma {:induction false} LastFailureBounded(policy: Policy, events: seq<Event>)
    requires NoOverflow(policy, events)
    ensures var last := LastFailure(SinceHealthy(events));
      last.Some? ==> CheckedAdd(policy, last.value).Some?
  {
    hide CheckedAdd, Failure, Healthy;
    if events != [] {
      var front, e := events[..|events| - 1], events[|events| - 1];
      LastFailureBounded(policy, front);
      assert events == front + [e];
      LastEvent(front, e);
      LastEvent(SinceHealthy(front), e);
    }
  }

  // An open circuit has reached the threshold, and a probe is out only while
  // the circuit is open; while deadlines can be represented, a circuit that has
  // reached the threshold is open.
  lemma {:induction false} CircuitInvariant(policy: Policy, s0: State, events: seq<Event>)
    requires ValidPolicy(policy) && ValidStart(policy, s0)
    ensures var s := After(policy, s0, events);
      && (s.openUntil.Some? ==> s.consecutiveFailures >= policy.failureThreshold)
      && (s.probeInFlight ==> s.openUntil.Some?)
    ensures var s := After(policy, s0, events);
      (s0.consecutiveFailures >= policy.failureThreshold ==> s0.openUntil.Some?) && NoOverflow(policy, events) ==>
        (s.openUntil.Some? <==> s.consecutiveFailures >= policy.failureThreshold)
  {
    HistoryExplains(policy, s0, events);
    NoFailureNoCount(SinceHealthy(events));
    hide After, SinceHealthy, SinceObserved, EverHealthy, CountFailures, LastFailure, CheckedAdd;
    if NoOverflow(policy, events) { LastFailureBounded(policy, events); }
  }

  // So whether the failing task was the probe never matters.
  lemma {:induction false} WasProbeIrrelevant(policy: Policy, s0: State, events: seq<Event>, now: nat)
    requires ValidPolicy(policy) && ValidStart(policy, s0)
    ensures var s := After(policy, s0, events); var idle := s.(probeInFlight := false);
      Failed(policy, idle, s.probeInFlight, now) == Failed(policy, idle, false, now)
  {
    hide After, NoOverflow;
    CircuitInvariant(policy, s0, events);
    HistoryExplains(policy, s0, events);
    hide Failures, OpenUntil, ProbeOut, SinceObserved;
  }

  predicate OnlySelections(events: seq<Event>) {
    forall i :: 0 <= i < |events| ==> events[i].Select?
  }

  lemma {:induction false} SelectionsKeep(policy: Policy, s: State, events: seq<Event>)
    requires OnlySelections(events)
    ensures var t := After(policy, s, events);
      t.openUntil == s.openUntil && (s.probeInFlight ==> t.probeInFlight)
  {
    if events != [] { SelectionsKeep(policy, s, events[..|events| - 1]); }
  }

  // Once a probe has been granted, no selection is until the next observation.
  lemma {:induction false} OneProbeAtATime(policy: Policy, s: State, now: nat, between: seq<Event>, later: nat)
    requires s.openUntil.Some? && Admits(s, now) && OnlySelections(between)
    ensures !Admits(After(policy, s, [Select(now)] + between), later)
  {
    AfterAppend(policy, s, [Select(now)], between);
    assert [Select(now)] == [] + [Select(now)];
    OneMore(policy, s, [], Select(now));
    NoEvents(policy, s);
    SelectionsKeep(policy, Selected(s, now), between);
    hide After;
  }

  // An observed strategy is admitted again from its deadline on, and until some
  // selection at or after the deadline takes the probe.
  lemma {:induction false} ReadmittedAtDeadline(policy: Policy, s0: State, events: seq<Event>, since: seq<Event>,
                                                now: nat)
    requires ValidPolicy(policy) && ValidStart(policy, s0) && OnlySelections(since)
    requires events == [] || events[|events| - 1].Observe?
    ensures var until := OpenUntil(policy, s0, events);
      until.Some? && (forall i :: 0 <= i < |since| ==> since[i].now < until.value) ==>
        (Admits(After(policy, s0, events + since), now) <==> until.value <= now)
  {
    hide OpenUntil, SinceObserved, Failures, ProbeOut, After, ValidPolicy, ValidStart, Step;
    var s := After(policy, s0, events);
    HistoryExplains(policy, s0, events);
    AfterAppend(policy, s0, events, since);
    assert SinceObserved(events) == [] && !ProbeOut(s.openUntil, []) by { NothingSince(events, s.openUntil); }
    if s.openUntil.Some? && forall i :: 0 <= i < |since| ==> since[i].now < s.openUntil.value {
      EarlySelections(policy, s, since);
    }
  }

  lemma NothingSince(events: seq<Event>, openUntil: Option<nat>)
    requires events == [] || events[|events| - 1].Observe?
    ensures SinceObserved(events) == [] && !ProbeOut(openUntil, [])
  {
  }

  lemma {:induction false} EarlySelections(policy: Policy, s: State, events: seq<Event>)
    requires OnlySelections(events) && s.openUntil.Some?
    requires forall i :: 0 <= i < |events| ==> events[i].now < s.openUntil.value
    ensures After(policy, s, events) == s
  {
    if events != [] { EarlySelections(policy, s, events[..|events| - 1]); }
  }

  // ---- Selections and snapshots -------------------------------------------

  lemma {:induction false} MaskIs(states: States, strategies: seq<string>, now: nat, i: nat)
    requires i < |strategies|
    ensures |SelectAll(states, strategies, now).1| == |strategies|
    ensures SelectAll(states, strategies, now).1[i]
            == Admits(StateOf(SelectAll(states, strategies[..i], now).0, strategies[i]), now)
  {
    hide Admits, Selected, StateOf;
    var last := |strategies| - 1;
    MaskLength(states, strategies[..last], now);
    if i < last {
      MaskIs(states, strategies[..last], now, i);
      assert strategies[..last][..i] == strategies[..i];
    }
  }

  // Enabled and skipped split the input.
  lemma {:induction false} ChosenSplits(names: seq<string>, mask: seq<bool>)
    requires |names| == |mask|
    ensures multiset(Chosen(names, mask, true)) + multiset(Chosen(names, mask, false)) == multiset(names)
  {
    if names != [] {
      ChosenSplits(names[..|names| - 1], mask[..|names| - 1]);
      SplitsOneMore(names, mask);
    }
  }

  lemma {:induction false} SplitsOneMore(names: seq<string>, mask: seq<bool>)
    requires |names| == |mask| && names != []
    requires var last := |names| - 1;
      multiset(Chosen(names[..last], mask[..last], true)) + multiset(Chosen(names[..last], mask[..last], false))
      == multiset(names[..last])
    ensures multiset(Chosen(names, mask, true)) + multiset(Chosen(names, mask, false)) == multiset(names)
  {
    hide Chosen;
    var last := |names| - 1;
    ChosenLast(names, mask, true);
    ChosenLast(names, mask, false);
    var front, name := names[..last], names[last];
    var yes, no := Chosen(front, mask[..last], true), Chosen(front, mask[..last], false);
    assert names == front + [name];
    if mask[last] { OneMoreName(yes, no, front, name); } else { OneMoreName(no, yes, front, name); }
  }

  lemma OneMoreName(a: seq<string>, b: seq<string>, all: seq<string>, name: string)
    requires multiset(a) + multiset(b) == multiset(all)
    ensures multiset(a + [name]) + multiset(b) == multiset(all + [name])
    ensures b + [] == b
  {
  }

  lemma {:induction false} ChosenLast(names: seq<string>, mask: seq<bool>, flag: bool)
    requires |names| == |mask| && names != []
    ensures Chosen(names, mask, flag) == Chosen(names[..|names| - 1], mask[..|names| - 1], flag)
                                         + if mask[|names| - 1] == flag then [names[|names| - 1]] else []
  {
  }

  // A snapshot calls a circuit closed exactly when the next selection would
  // admit the strategy.
  lemma {:induction false} SnapshotTells(policy: Policy, s0: State, events: seq<Event>, now: nat, shown: Snapshot)
    requires ValidPolicy(policy) && ValidStart(policy, s0)
    requires Shows(shown, After(policy, s0, events), now)
    ensures shown.state == "closed" <==> Admits(After(policy, s0, events), now)
  {
    hide After, NoOverflow;
    CircuitInvariant(policy, s0, events);
    assert |"half_open"| == 9 && |"open"| == 4 && |"closed"| == 6;
  }

  // With the threshold reached, an open circuit stays so for the cooldown after
  // the last failure.
  lemma {:induction false} DeadlineIs(policy: Policy, s0: State, events: seq<Event>, failedAt: nat)
    requires ValidPolicy(policy) && ValidStart(policy, s0)
    requires Failures(s0, events) >= policy.failureThreshold && LastFailure(SinceHealthy(events)) == Some(failedAt)
    ensures failedAt + policy.cooldown <= policy.horizon ==>
      After(policy, s0, events).openUntil == Some(failedAt + policy.cooldown)
    ensures failedAt + policy.cooldown > policy.horizon ==> After(policy, s0, events).openUntil == None
  {
    hide After, Failures, LastFailure, SinceHealthy;
    HistoryExplains(policy, s0, events);
  }

  // An observation carries to each strategy the outcome reported for it, if any.
  lemma {:induction false} OutcomeIs(outcomes: map<string, string>, name: string, crawlFailed: bool, now: nat)
    ensures EventsOf(ObserveCall([name], outcomes, crawlFailed, now), name) ==
      [Observe(if name in outcomes then Some(outcomes[name]) else None, crawlFailed, now)]
  {
    var e := Observe(Outcome(outcomes, name), crawlFailed, now);
    assert Each([name][..0], name, e) == [];
    assert Each([name], name, e) == [] + [e];
  }
}
