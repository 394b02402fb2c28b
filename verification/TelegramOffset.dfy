// The update offset over whole runs, with any number of polling cycles in
// flight. Telegram's ids are non-negative and grow as updates arrive; it hands
// out the earliest updates at or above the offset asked for.
module TelegramOffset {
  import opened TelegramUpdates

  datatype System = System(
    arrived: seq<int>,
    offset: int,
    inFlight: map<nat, seq<int>>,
    completed: set<int>)

  datatype Action =
    | Arrive(id: int)
    | Fetch(cycle: nat, batch: seq<int>)
    | Finish(cycle: nat, complete: bool)
    | Crash(cycle: nat)

  const START := System([], 0, map[], {})

  // The earliest updates at or above the offset: none of those is left out
  // before one that is given.
  ghost predicate Earliest(arrived: seq<int>, offset: int, batch: seq<int>) {
    && (forall id :: id in batch ==> id in arrived && id >= offset)
    && (forall id, last :: id in arrived && last in batch && offset <= id <= last ==> id in batch)
  }

  function Largest(batch: seq<int>): int
    requires batch != []
  {
    if |batch| == 1 then batch[0] else Max(Largest(batch[..|batch| - 1]), batch[|batch| - 1])
  }

  ghost predicate Enabled(s: System, a: Action) {
    match a
    case Arrive(id) => id >= 0 && forall k :: 0 <= k < |s.arrived| ==> s.arrived[k] < id
    case Fetch(cycle, batch) => cycle !in s.inFlight && |batch| <= 100 && Earliest(s.arrived, s.offset, batch)
    case Finish(cycle, _) => cycle in s.inFlight
    case Crash(cycle) => cycle in s.inFlight
  }

  function Apply(s: System, a: Action): System {
    match a
    case Arrive(id) => s.(arrived := s.arrived + [id])
    case Fetch(cycle, batch) => s.(inFlight := s.inFlight[cycle := batch])
    case Finish(cycle, complete) =>
      var rest := s.(inFlight := s.inFlight - {cycle});
      if cycle !in s.inFlight || !complete || s.inFlight[cycle] == [] then rest
      else
        var batch := s.inFlight[cycle];
        rest.(offset := Max(s.offset, Largest(batch) + 1), completed := s.completed + set id | id in batch)
    case Crash(cycle) => s.(inFlight := s.inFlight - {cycle})
  }

  ghost predicate Possible(actions: seq<Action>) {
    actions == []
    || (Possible(actions[..|actions| - 1]) && Enabled(After(actions[..|actions| - 1]), actions[|actions| - 1]))
  }

  function After(actions: seq<Action>): System {
    if actions == [] then START else Apply(After(actions[..|actions| - 1]), actions[|actions| - 1])
  }

  // ---- The invariant ------------------------------------------------------

  // Every update before `bound` has been in a completed batch or is in `batch`.
  ghost predicate Covered(arrived: seq<int>, completed: set<int>, batch: seq<int>, bound: int) {
    forall id :: id in arrived && id < bound ==> id in completed || id in batch
  }

  ghost predicate BatchCovered(s: System, batch: seq<int>) {
    batch != [] ==> Largest(batch) in s.arrived && Covered(s.arrived, s.completed, batch, Largest(batch) + 1)
  }

  ghost predicate Inv(s: System) {
    && Covered(s.arrived, s.completed, [], s.offset)
    && (s.offset == 0 || s.offset - 1 in s.arrived)
    && (forall k :: 0 <= k < |s.arrived| ==> s.arrived[k] >= 0)
    && (forall cycle :: cycle in s.inFlight ==> BatchCovered(s, s.inFlight[cycle]))
  }

  lemma {:induction false} LargestIs(batch: seq<int>)
    requires batch != []
    ensures Largest(batch) in batch && forall id :: id in batch ==> id <= Largest(batch)
  {
    if |batch| > 1 {
      LargestIs(batch[..|batch| - 1]);
      assert batch == batch[..|batch| - 1] + [batch[|batch| - 1]];
    }
  }

  lemma ArriveKeeps(s: System, id: int)
    requires Inv(s) && Enabled(s, Arrive(id))
    ensures Inv(Apply(s, Arrive(id)))
  {
  }

  lemma FetchKeeps(s: System, cycle: nat, batch: seq<int>)
    requires Inv(s) && Enabled(s, Fetch(cycle, batch))
    ensures Inv(Apply(s, Fetch(cycle, batch)))
  {
    hide Largest;
    var t := Apply(s, Fetch(cycle, batch));
    if batch != [] { LargestIs(batch); }
    assert BatchCovered(t, batch);
    forall c | c in t.inFlight ensures BatchCovered(t, t.inFlight[c]) {
      if c != cycle { assert BatchCovered(s, s.inFlight[c]); }
    }
  }

  lemma FinishKeeps(s: System, cycle: nat, complete: bool)
    requires Inv(s) && Enabled(s, Finish(cycle, complete))
    ensures Inv(Apply(s, Finish(cycle, complete)))
  {
  }

  lemma CrashKeeps(s: System, cycle: nat)
    requires Inv(s)
    ensures Inv(Apply(s, Crash(cycle)))
  {
  }

  lemma {:induction false} Invariant(actions: seq<Action>)
    requires Possible(actions)
    ensures Inv(After(actions))
  {
    hide Inv, Enabled, Apply;
    if actions != [] {
      var front, a := actions[..|actions| - 1], actions[|actions| - 1];
      Invariant(front);
      match a
      case Arrive(id) => ArriveKeeps(After(front), id);
      case Fetch(cycle, batch) => FetchKeeps(After(front), cycle, batch);
      case Finish(cycle, complete) => FinishKeeps(After(front), cycle, complete);
      case Crash(cycle) => CrashKeeps(After(front), cycle);
    } else {
      assert Inv(START) by { StartHolds(); }
    }
  }

  lemma StartHolds()
    ensures Inv(START)
  {
  }

  // ---- Over whole runs ----------------------------------------------------

  // Whatever cycles overlap, fail or crash: an update below the offset has been
  // in a completed batch.
  lemma {:induction false} NothingSkipped(actions: seq<Action>, id: int)
    requires Possible(actions)
    requires id in After(actions).arrived && id < After(actions).offset
    ensures id in After(actions).completed
  {
    hide After, Possible, BatchCovered;
    Invariant(actions);
  }

  // The offset never decreases.
  lemma {:induction false} OffsetMonotone(actions: seq<Action>, n: nat)
    requires n <= |actions|
    ensures After(actions[..n]).offset <= After(actions).offset
  {
    hide Largest;
    if n < |actions| {
      var front := actions[..|actions| - 1];
      OffsetMonotone(front, n);
      assert front[..n] == actions[..n];
    } else {
      assert actions[..n] == actions;
    }
  }

  // It only moves past updates that have arrived, so none that is still to come
  // is skipped.
  lemma {:induction false} FutureStaysAhead(actions: seq<Action>, id: int)
    requires Possible(actions) && Enabled(After(actions), Arrive(id))
    ensures id >= After(actions).offset
  {
    hide After, Possible, BatchCovered, Covered;
    Invariant(actions);
  }

  // ---- The cycle in use is a step of this system --------------------------

  function IdsOf(updates: seq<Update>): (r: seq<int>)
    ensures |r| == |updates| && forall i :: 0 <= i < |r| ==> r[i] == updates[i].updateId
  {
    seq(|updates|, i requires 0 <= i < |updates| => updates[i].updateId)
  }

  lemma LargestIsMax(updates: seq<Update>)
    requires updates != []
    ensures MaxId(updates).Some? && Largest(IdsOf(updates)) == MaxId(updates).value
  {
    hide Largest, MaxId;
    var ids := IdsOf(updates);
    LargestIs(ids);
    MaxIdIs(updates);
    var i :| 0 <= i < |updates| && updates[i].updateId == MaxId(updates).value;
    assert ids[i] in ids;
    var k :| 0 <= k < |ids| && ids[k] == Largest(ids);
    assert updates[k].updateId <= MaxId(updates).value;
  }

  // A polling cycle that works on a batch in flight moves the stored offset as
  // the action `Finish` does.
  method FinishCycle(store: UpdateState, updates: seq<Update>, context: Context, answers: nat -> Answer,
                     feedbackFails: bool, ghost s: System, ghost cycle: nat)
    returns (completed: bool)
    requires s.offset == store.nextUpdateId && cycle in s.inFlight && s.inFlight[cycle] == IdsOf(updates)
    modifies store
    ensures Enabled(s, Finish(cycle, completed))
    ensures store.nextUpdateId == Apply(s, Finish(cycle, completed)).offset
    ensures completed ==> forall i :: 0 <= i < |updates| ==>
      updates[i].updateId in Apply(s, Finish(cycle, completed)).completed
  {
    hide Largest, AllPass, Selected, MaxId;
    completed := RunInteractionCycle(store, updates, context, answers, feedbackFails);
    if updates != [] { LargestIsMax(updates); } else { assert IdsOf(updates) == []; }
    assert NextUpdateId(updates).Some? ==> updates != [] by { MaxIdIs(updates); }
    assert forall i :: 0 <= i < |updates| ==> updates[i].updateId == IdsOf(updates)[i];
  }
}
